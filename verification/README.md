# Coordination gate, telephony controller and worker loops: a verified model

This project models five parts of the system and proves what they promise.

* **The agent-coordination gate** (`scripts/ci/agent_coordination_*.py`) decides
  whether a pull request may proceed. It replays lease comments into time-bounded
  leases, decides whether path specifications overlap, builds a snapshot of the
  repository and evaluates one pull request against it. Modules `Reports`, `Leases`,
  `LeaseLock`, `LeaseMeaning`, `Paths`, `PathOverlap`, `GlobOverlap`, `TextBasics`,
  `Pages`, `Gate`, `GateRun`, `GateBasics`, `ReasonCodes`, `GateMeaning`, `Snapshots`,
  `Exclusion`, `PassMeaning`, `Coexistence`, `GateFailures`, `HiddenConflict`,
  `Ownership`, `Stacks`, `Hydration`.
* **The telephony controller** (`backend/app/livekit_telephony_controller.py`) holds,
  resumes and transfers calls over a remote room in which any call may fail. Modules
  `Telephony`, `TelephonySafety`, `TelephonyOutcomes`, `Recovery`.
* **The embedding backfill**, restartable after any committed batch. Modules
  `Backfill`, `BackfillConvergence`, `BackfillMeaning`.
* **The sequential redactor** of the probe report. Module `Redaction`.
* **The queue-depth gauges** of the worker. Modules `QueueDepth`, `QueueMeaning`.

Parsed records are the starting point: issues, pull requests, comments and manifests
already hold their control fields. Times are integers (seconds) in the gate and reals in
the worker. What cannot be seen is a parameter: the text filters of the gate
(`TextPolicy`), the report encoder, the pattern of failing telephony calls, the embedding
provider and the hash, the dump of a report, the iteration order of a set. Each function
is the meaning of a piece of code; where the code is a loop that updates variables or an
object, a method with that loop, or a class with those fields, is proved equal to the
function, and the properties are proved of the function. What the small functions compute
is stated separately, without naming them, so that the main results say something about
the records themselves (`GateBasics`, `ReasonCodes`, `LeaseMeaning`, `TextBasics`,
`TelephonyOutcomes`, `BackfillMeaning`, `QueueMeaning`).

## Main results

* Two different open pull requests that both pass over one repository state have
  different work items, disjoint changed files, no shared resource, and no two path
  specifications that the gate's own test finds overlapping (`PassingPrsExclude`). No
  other open pull request closes the work item of a passing one (`PassingClosesAlone`). On
  literal, `dir/` and `dir/**` specifications no path whatever is owned by both
  (`OwnershipIsDisjoint`), and a declared file is owned by no specification of the other
  (`DeclaredFileIsExclusive`). A pass is characterised exactly by `PassIff`; passing pairs
  and passing stacks exist (`BothPass`, `StackExists`).
* When two specifications have a path in common is decided exactly, for every two tokens
  that a manifest admits (`SharesPathIff`): a file must be owned by the other side, and
  otherwise the literal texts before the first star must be prefixes of one another and
  those after the last star suffixes of one another.
* The lease book is a single-slot lock with a 120-minute lifetime. It stays one exactly
  as long as no run that has lost the slot sends a heartbeat at the very instant its lease
  expires (`HistoryKeepsLockIff`); the first such heartbeat makes two runs active at once
  exactly when another run holds the slot (`TwoActiveIff`).
* Telephony: hold music means caller and human do not hear each other, and a recorded
  consultation means the caller is cut off from the human and from the target. This holds
  over every run with clean-up calls succeeding (`RunIsSafe`), and under any failures at
  all exactly as long as no step leaks (`RunIsSafeIff`). Starting a consultation is all or
  nothing (`SagaIsAtomic`). Under every schedule of recovery tasks a successful completion
  or cancel is never reported as a failure, and a failed cancel is always recovered.
* Backfill: stopping after any committed batch and running again reaches the store of one
  uninterrupted run (`RerunConverges`), for every provider that is a function of the texts
  of a batch. With a provider that embeds each text on its own but may fail at any call of
  any pass, one run without failures reaches the same store as if it had been the only one
  (`FailuresLeaveNoTrace`).

## Where the code does not meet the expectation

Each is stated with its exact condition or a witness; the model follows the code.

* Equal timestamps can give two active leases: the lapsing heartbeat is accepted because
  the renewal test includes the expiry instant (`TieBreaksExclusion`, exact in
  `TwoActiveIff` and `StepKeepsLockIff`; `scripts/ci/agent_coordination_model.py:345` and `:367`).
* `_path_specs_overlap` misses a common path exactly when the specifications meet and none
  of its at most four candidates is owned by both (`OverlapMissesIff`), never when one of
  them is a file (`FileIsNeverMissed`). It calls `s/*b` and `s/a*` disjoint although both
  own `s/ab` (`OverlapMissesGlobs`). It also finds a glob such as `src/**/*` disjoint from
  itself, exactly when the slashes and stars at the end of a glob hold two slashes, or one
  with nothing before them (`SelfOverlapIff`). Two pull requests that both declare
  `src/**/*` pass together (`SharedGlobPasses`).
* The report keeps 50 findings and warnings come before conflicts. A conflict with another
  pull request therefore does not make the verdict `fail` exactly when everything else is
  in order and 50 or more of the compared pull requests have an unreadable manifest
  (`GateFailsIff`; a repository where the gate only warns is in `CrowdHidesConflict`).
* For an unparseable manifest the comparison looks for changed files below `.github/`,
  but changed files have lost their leading dot, so that list is always empty
  (`FallbackListsNoWorkflow`).
* A recovery task that waits while a completed consultation is replaced ends the new one:
  the check repeated under the lock does not compare identities
  (`StaleTaskEndsNewConsultation`, `WaitingTaskEndsAny`; it can happen by
  `ReplacementIsPossible`).
* Three commands can leave the music playing while one side hears another, exactly when a
  compensating call fails too: resume (`ResumeIsSafeIff`, `FailedUndoLeaksAudio`), complete
  (`CompleteIsSafeIff`, `FailedUnbridgeLeaksAudio`) and cancel (`CancelIsSafeIff`,
  `FailedReconnectLeaksAudio`). Hold, start and recovery never do (`NextIsSafeIff`).
* A value survives redaction in some list and text exactly when, laid over the marker, it
  agrees with it somewhere (`AlwaysGoneIff`). Without brackets these are the parts of the
  word REDACTED (`CompleteIff`); with one there are others (`BracketsCanSurvive`).
* A snapshot that fails part-way can leave a gauge that no later snapshot clears
  (`FailureKeepsCoverIff`, `FailureStrands`, `StrandedStays`).

## Model

| member | source | states |
|---|---|---|
| Reports.ReportBuilder.Add | scripts/ci/agent_coordination_model.py:75-78 | the kept findings stay the first 50 of everything ever raised |
| Reports.ReportBuilder.Extend | scripts/ci/agent_coordination_core.py:87 | extending by the truncated slice amounts to raising every lease finding |
| Reports.ReportBuilder.Build | scripts/ci/agent_coordination_model.py:80-99 | the built report carries verdict, codes, counts and kept findings of the whole raised history: `fail` iff an error code, `pass` iff no code at all, counts adding up to at most 50 |
| Reports.CapKeepsVerdict | scripts/ci/agent_coordination_model.py:75-99 | at most 50 findings are kept; `pass` iff nothing was ever raised; below 50 warnings, `fail` iff some error was raised, wherever it stands |
| Reports.BoundedReportIsSafe | scripts/ci/agent_coordination_core.py:172-190 | the bytes fit the bound, name the same pull request and work item, and decode to the same state or to `fail`, to the whole report iff that fits; an error means that neither the report nor its fallback fits |
| Leases.CollectEvents | scripts/ci/agent_coordination_model.py:322-336 | the events of the comments, or an error as soon as one lease comment has an unreadable time |
| Leases.UndatedSpoils | scripts/ci/agent_coordination_model.py:322-336 | one unreadable timestamp anywhere makes the whole reading fail |
| Leases.ApplyClaim | scripts/ci/agent_coordination_model.py:341-363 | a claim or reclaim does to the running variables what one lock step does to the book |
| Leases.ApplyLeaseEvent | scripts/ci/agent_coordination_model.py:364-384 | a heartbeat or hand-off does to the running variables what one lock step does to the book |
| Leases.ParseLeases | scripts/ci/agent_coordination_model.py:335-385 | the loop over the sorted events computes the replay that the lock theorems are about, or raises |
| LeaseLock.StepKeepsLockIff | scripts/ci/agent_coordination_model.py:341-384 | one event keeps the single-slot invariant iff it is not a heartbeat at the expiry instant of a run that lost the slot |
| LeaseLock.HistoryKeepsLockIff | scripts/ci/agent_coordination_model.py:335-385 | a time-ordered history is locked after every event iff it contains no such heartbeat |
| LeaseLock.StrictHistoryIsLocked | scripts/ci/agent_coordination_model.py:335-385 | strictly increasing times keep the invariant throughout |
| LeaseLock.LeasesExclude | scripts/ci/agent_coordination_model.py:335-385 | lease intervals of different runs are disjoint and no instant, past or future, finds two of them active |
| LeaseLock.SlotSimulates | scripts/ci/agent_coordination_model.py:341-384 | the map of leases refines one slot that holds a run, a start and an expiry |
| LeaseLock.ActiveLeaseRefinesSlot | scripts/ci/agent_coordination_model.py:388-392 | from the last event on, the selected active lease is the holder of the slot, whatever the order of the map |
| LeaseLock.ActiveLeaseIsTheOnlyOne | scripts/ci/agent_coordination_model.py:388-392 | at any instant the selected lease is a run's lease iff that lease is active |
| LeaseLock.TwoActiveIff | scripts/ci/agent_coordination_model.py:341-384 | in a time-ordered history without an earlier boundary heartbeat, an event leaves two runs active at its own instant iff it is a boundary heartbeat that meets a held slot |
| LeaseLock.TieBreaksExclusion | scripts/ci/agent_coordination_model.py:345-367 | claim, rival claim and heartbeat at one instant leave two active leases and no finding |
| LeaseLock.LeaseIsCovered | scripts/ci/agent_coordination_model.py:341-384 | each instant of a lease lies less than 120 minutes after an accepted claim or heartbeat of that run, and an unreleased lease ends exactly 120 minutes after the last accepted one, later events of the run being refused or hand-offs |
| LeaseLock.RevivalNeedsClaim | scripts/ci/agent_coordination_model.py:350-384 | between a released and an unreleased state of one run lies an accepted claim or reclaim of that run |
| LeaseLock.StepTrichotomy | scripts/ci/agent_coordination_model.py:341-384 | each event is exactly one of applied, reported as one finding, or a hand-off that changes nothing |
| LeaseLock.EventsAreConserved | scripts/ci/agent_coordination_model.py:335-385 | over a history these three classes add up to the number of events, and the reported ones to the number of findings |
| LeaseLock.CommentOrderIsIrrelevant | scripts/ci/agent_coordination_model.py:336-341 | permuting comments whose events have distinct times changes neither leases nor findings nor the error |
| LeaseLock.ParsedLeasesExclude | scripts/ci/agent_coordination_model.py:335-385 | for comments in any order with distinct event times, no instant finds two runs active |
| LeaseMeaning.StepTable | scripts/ci/agent_coordination_model.py:341-384 | each kind of event is refused under exactly these conditions, with exactly this code and no other change, and takes effect otherwise |
| LeaseMeaning.SortIsStable | scripts/ci/agent_coordination_model.py:336-341 | events of one instant keep the order of their comments |
| LeaseMeaning.LatestActiveIsLatest | scripts/ci/agent_coordination_model.py:388-392 | of the active leases the one that started last is selected, the first listed if several did |
| PathOverlap.OverlapIsExact | scripts/ci/agent_coordination_model.py:399-419 | on literals, `dir/` and `dir/**`: the specifications overlap iff some path is matched by both |
| PathOverlap.MatchesScope | scripts/ci/agent_coordination_model.py:395-409 | matching such a specification is membership in the file, directory or subtree it denotes |
| PathOverlap.OverlapHasWitness | scripts/ci/agent_coordination_model.py:412-419 | for every two safe tokens, globs included, a reported overlap has a path that both match |
| PathOverlap.OverlapIsSymmetric | scripts/ci/agent_coordination_model.py:412-419 | the answer does not depend on the order of the two specifications |
| PathOverlap.LiteralOverlapIsExact | scripts/ci/agent_coordination_model.py:399-419 | a plain file and any safe token, globs included, overlap iff some path is matched by both |
| GlobOverlap.SharesPathIff | scripts/ci/agent_coordination_model.py:395-409 | any two safe tokens match a common path iff a file among them is owned by the other, or their literal heads are prefix-comparable and their literal tails suffix-comparable |
| GlobOverlap.OverlapMissesIff | scripts/ci/agent_coordination_model.py:412-419 | for any two safe tokens the test reports no overlap that is not there, and misses one iff they meet and no candidate is owned by both |
| GlobOverlap.FileIsNeverMissed | scripts/ci/agent_coordination_model.py:412-419 | if one of the two denotes a file, the test answers yes iff a common path exists |
| GlobOverlap.SelfOverlapIff | scripts/ci/agent_coordination_model.py:412-419 | a glob shares paths with itself, and the test sees it iff its trailing slashes and stars hold no slash, or one after a non-empty stem |
| GlobOverlap.DeepGlobMissesItself | scripts/ci/agent_coordination_model.py:412-419 | `src/**/*` owns `src/a/b` and is reported as disjoint from itself |
| PathOverlap.OverlapMissesGlobs | scripts/ci/agent_coordination_model.py:412-419 | two globs that share a file are reported as disjoint |
| TextBasics.NormalizeMeans | scripts/ci/agent_coordination_model.py:395-396 | a specification loses surrounding spaces and then leading dots and slashes, all of them and nothing else |
| TextBasics.StarMeans | scripts/ci/agent_coordination_model.py:407-408 | a star stands for any text between matches of the parts around it; without stars only the same text matches |
| Pages.GetPaginated | scripts/ci/agent_coordination_gate.py:51-65 | the paged read is complete or an error, and an error iff there are 2000 entries or more |
| GateRun.GatherRivals | scripts/ci/agent_coordination_core.py:111-135 | the loop yields the compared pull requests, the ignored count and the warnings in order, or raises |
| GateRun.Contested | scripts/ci/agent_coordination_core.py:141-147 | the nested loops detect a conflict iff a file is shared or some two declared specifications overlap |
| GateRun.CheckPairs | scripts/ci/agent_coordination_core.py:137-165 | the comparison loop raises exactly the findings of every pair in order, or stops at an unsafe path |
| GateRun.CheckOwn | scripts/ci/agent_coordination_core.py:36-102 | the checks of the pull request alone raise exactly their findings in order, or stop at the first unreadable input |
| GateRun.EvaluateSnapshot | scripts/ci/agent_coordination_core.py:18-169 | the whole evaluation returns the report of the findings that PassIff characterises, or the input error |
| GateBasics.OpenPrsAre | scripts/ci/agent_coordination_core.py:53-55 | compared are the last entry of each listed number, and the target if its number is not listed |
| GateBasics.SoleCloserIff | scripts/ci/agent_coordination_core.py:57-62 | the count of closing pull requests is one iff exactly one of these has the work item among its links |
| GateBasics.ChangedFilesAre | scripts/ci/agent_coordination_model.py:428-438 | the changed files are the accepted names, normalized, each once; one refused name spoils them all |
| GateBasics.AllPathSpecsAre | scripts/ci/agent_coordination_model.py:115-117 | a specification is declared iff it is a write path, a generated file or a workflow |
| GateBasics.IsMigrationMeans | scripts/ci/agent_coordination_core.py:137-159 | a file counts as a migration iff it holds `/versions/`, or `migration` in any case |
| GateBasics.PlaceholderMeans | scripts/ci/agent_coordination_model.py:422-425 | no resource is claimed by an empty value or by one of three words in any case |
| GateBasics.CurrentPrIs | scripts/ci/agent_coordination_core.py:104-109 | a pull request counts for the last listed issue that names it |
| ReasonCodes.OwnReasons | scripts/ci/agent_coordination_core.py:36-102 | each code of the own checks is raised iff its own condition on snapshot, manifest and lease book holds |
| ReasonCodes.PairReasons | scripts/ci/agent_coordination_core.py:138-165 | each code of the comparison is raised iff its own condition on the two manifests and file lists holds |
| ReasonCodes.EvaluationReasons | scripts/ci/agent_coordination_core.py:18-169 | the evaluation of a readable pull request raises a code iff its own checks, a rival, an unreadable rival or the lack of files gives the reason |
| ReasonCodes.RivalsAre | scripts/ci/agent_coordination_core.py:111-134 | compared are exactly the others that an open issue names, with their own manifest or one that owns their changed files and the generated ones among them |
| ReasonCodes.RivalsAreCounted | scripts/ci/agent_coordination_core.py:111-135 | apart from the target everybody is either compared or counted as historical |
| ReasonCodes.ReportMeans | scripts/ci/agent_coordination_core.py:28-169 | the report names the target and its work item, keeps the first 50 findings, and counts everybody else as compared or historical |
| ReasonCodes.UnreadableTarget | scripts/ci/agent_coordination_core.py:30-34 | an unreadable target fails with its own reason as the only finding |
| ReasonCodes.EvaluationStopsIff | scripts/ci/agent_coordination_core.py:85-140 | an evaluation of a readable target stops with an input error iff a lease comment or the creation has no readable time, or a file name of the target or of a compared pull request is refused |
| Snapshots.ReadSnapshot | scripts/ci/agent_coordination_gate.py:93-159 | the builder's loops compute the snapshot that SnapshotIsFaithful describes, or raise |
| Snapshots.CollectIssues | scripts/ci/agent_coordination_gate.py:104-118 | listed work items lose their comments, and every recorded current pull request is collected with the target |
| GateMeaning.SnapshotIsExact | scripts/ci/agent_coordination_gate.py:93-159 | over consistent state the snapshot holds exactly the open pull requests, with files iff they are the target, named by an open work item or close the same one, the open work items and the target's without comments, and the given time |
| Exclusion.SnapshotIsFaithful | scripts/ci/agent_coordination_gate.py:93-159 | over consistent state the snapshot holds every open work item and, with its files, every open pull request that some open work item names |
| Exclusion.PairSilenceIsExclusion | scripts/ci/agent_coordination_core.py:138-165 | a pair raises nothing iff it shares no file, no overlapping specification, no resource, and declares disjoint non-empty down revisions when both touch migrations |
| Exclusion.PassFacts | scripts/ci/agent_coordination_core.py:36-102 | a pass implies that work item and pull request name each other, declared files, no contest, and the active lease being the manifest's run |
| Exclusion.PassNamesWorkItem | scripts/ci/agent_coordination_core.py:36-66 | a passing pull request closes exactly one work item, open and labelled, which names it as current |
| GateMeaning.PassingClosesAlone | scripts/ci/agent_coordination_core.py:57-62 | no other open pull request of the repository closes the work item of a passing one |
| GateMeaning.TwoClosersFail | scripts/ci/agent_coordination_core.py:57-62 | a pull request whose work item another open one closes too gets `fail` |
| Exclusion.RivalIsCompared | scripts/ci/agent_coordination_core.py:104-165 | every open pull request that an open work item names, passing or not, is readable and exclusive with a passing one |
| Exclusion.PassingPrsExclude | scripts/ci/agent_coordination_core.py:104-165 | two passing open pull requests over one state have different work items and share nothing |
| Exclusion.OwnershipIsDisjoint | scripts/ci/agent_coordination_core.py:99-147 | with specifications in the exact fragment no path at all is owned by both, and each changed file is owned by its pull request |
| Ownership.CommonPathIff | scripts/ci/agent_coordination_core.py:99-147 | two passing pull requests own a common path iff two of their specifications meet, and each such pair is two non-files that the test misses |
| Ownership.DeclaredFileIsExclusive | scripts/ci/agent_coordination_core.py:99-147 | a file declared by a passing pull request is owned by no specification of another passing one, globs included |
| Ownership.SharedGlobPasses | scripts/ci/agent_coordination_core.py:141-147 | two pull requests of one repository that declare the same deep glob and own common paths both pass |
| PassMeaning.OwnSilence | scripts/ci/agent_coordination_core.py:36-102 | the own checks raise nothing iff authority, blockers, lease and declared files are all in order |
| PassMeaning.ComparisonSilence | scripts/ci/agent_coordination_core.py:104-165 | the comparison raises nothing iff every compared pull request is readable and exclusive |
| PassMeaning.PassIff | scripts/ci/agent_coordination_core.py:18-169 | state `pass` holds iff every one of the listed conditions holds |
| Coexistence.BothPass | scripts/ci/agent_coordination_core.py:18-169 | two open pull requests of one repository can pass at the same time |
| GateFailures.LayeredVerdict | scripts/ci/agent_coordination_model.py:75-99 | errors, warnings, errors, warnings in this order: the first group always decides, the third iff fewer than 50 warnings precede it |
| GateFailures.GateFailsIff | scripts/ci/agent_coordination_core.py:18-169 | a readable pull request fails iff its own checks do, or it conflicts with a rival and fewer than 50 rivals are unreadable; an error is hidden iff a conflict meets 50 or more and all else is in order |
| HiddenConflict.CrowdHidesConflict | scripts/ci/agent_coordination_core.py:111-165 | in a consistent repository with 50 unreadable rivals or more, read by the builder, two owners of one file get an error finding and the state `warn` |
| HiddenConflict.CrowdIsRead | scripts/ci/agent_coordination_gate.py:93-159 | up to the listing bound the builder reads that repository into the evaluated snapshot |
| Stacks.CheckStackParent | scripts/ci/agent_coordination_open_pr_policy.py:41-99 | the loop reports exactly the blockers whose own current pull request is not the declared parent |
| Stacks.PolicyObjectsIff | scripts/ci/agent_coordination_open_pr_policy.py:41-99 | there is a finding iff the pull request is readable and stacked and the last listed issue of some blocker names another pull request than the parent; all findings carry that code |
| Stacks.PassingChildShape | scripts/ci/agent_coordination_core.py:68-83 | a passing pull request with open blockers is stacked on an open parent that closes them all and whose head is its base |
| Stacks.StackShape | scripts/ci/agent_coordination_open_pr_policy.py:41-99 | if the parent passes too, the open blockers are exactly its one work item and the parent-authority policy finds nothing |
| Stacks.StackExists | scripts/ci/agent_coordination_core.py:68-83 | a blocked child and the parent it is stacked on can pass over one repository |
| Hydration.MismatchFails | scripts/ci/agent_coordination_core.py:64-66 | a bad manifest or a work item that names another pull request gives `fail`, never hidden by the cap |
| Hydration.ComparedPrsAreHydrated | scripts/ci/agent_coordination_gate.py:104-150 | unless the verdict is `fail`, every compared pull request was read with its files, the late target issue included |
| Hydration.FallbackListsNoWorkflow | scripts/ci/agent_coordination_core.py:131-132 | the stand-in manifest never lists a workflow, and its generated files all lie below `generated/` |
| Telephony.TelephonyController.SetBidirectional | backend/app/livekit_telephony_controller.py:197-254 | the loop with its compensation changes the room as the function that BidirectionalIsAtomic is about |
| Telephony.TelephonyController.SetHoldState | backend/app/livekit_telephony_controller.py:406-440 | hold and resume, with rollback, change room and music as the function proved safe |
| Telephony.TelephonyController.StartWarmConsultation | backend/app/livekit_telephony_controller.py:442-540 | the saga with its undo changes room, music and record as the function proved atomic |
| Telephony.TelephonyController.CompleteWarmConsultation | backend/app/livekit_telephony_controller.py:550-594 | the completion changes room, music and record as the function proved atomic |
| Telephony.TelephonyController.CancelWarmConsultation | backend/app/livekit_telephony_controller.py:596-638 | the cancellation changes room, music and record as the function whose outcomes are listed |
| Telephony.TelephonyController.RecoverDisconnected | backend/app/livekit_telephony_controller.py:640-697 | the recovery changes room, music and record as the function proved safe |
| TelephonySafety.BidirectionalIsAtomic | backend/app/livekit_telephony_controller.py:197-254 | success switches both directions and no other edge; failure restores the room, except exactly when the undone direction already had the requested value |
| TelephonySafety.SetBothOutcome | backend/app/livekit_telephony_controller.py:197-254 | under any failures: success iff both publish and four calls succeed; half-switched when the second switch and the undo both fail; otherwise the room is as before or has the first direction at the opposite value |
| TelephonySafety.ResumeIsSafeIff | backend/app/livekit_telephony_controller.py:406-440 | a resume keeps the invariant iff it is not half-switched with its undo failing |
| TelephonySafety.CompleteIsSafeIff | backend/app/livekit_telephony_controller.py:550-594 | a completion keeps the invariant iff neither the bridge is left half-switched nor, with the human not removed, a call that takes the bridge down fails |
| TelephonySafety.CancelIsSafeIff | backend/app/livekit_telephony_controller.py:596-638 | a cancel keeps the invariant iff its reconnection is not left half-switched |
| TelephonySafety.NextIsSafeIff | backend/app/livekit_telephony_controller.py:388-697 | any step keeps the invariant iff it is no leaking resume, completion or cancel, under any pattern of failures |
| TelephonySafety.RunIsSafeIff | backend/app/livekit_telephony_controller.py:388-697 | a run is safe at every point iff no step of it leaks |
| TelephonySafety.NextIsSafe | backend/app/livekit_telephony_controller.py:388-697 | every command and every recovery keeps the safety invariant under any pattern of primary failures |
| TelephonySafety.RunIsSafe | backend/app/livekit_telephony_controller.py:388-697 | every state of every run from an idle session satisfies the invariant |
| TelephonySafety.FailedUndoLeaksAudio | backend/app/livekit_telephony_controller.py:406-440 | a resume with two failing calls leaves music on and one direction open |
| TelephonySafety.FailedUnbridgeLeaksAudio | backend/app/livekit_telephony_controller.py:550-594 | a completion with two failing calls leaves caller and target connected under the music |
| TelephonySafety.FailedReconnectLeaksAudio | backend/app/livekit_telephony_controller.py:596-638 | a cancel with two failing calls leaves the human hearing the caller under the music |
| TelephonySafety.SagaIsAtomic | backend/app/livekit_telephony_controller.py:442-540 | the start ends with the target present, caller cut off and the consultation recorded, or with the initial room, no music and no record |
| TelephonySafety.ReplayMakesNoCall | backend/app/livekit_telephony_controller.py:456-475 | a second start during a consultation changes nothing and makes no remote call, and succeeds iff it repeats the command id with its fields present |
| TelephonySafety.CompletionIsAtomic | backend/app/livekit_telephony_controller.py:550-594 | completion connects caller and target without the human, or leaves room, music and record as they were |
| TelephonySafety.CancellationOutcome | backend/app/livekit_telephony_controller.py:596-638 | cancellation reconnects caller and human, or keeps the record with at most the target removed |
| TelephonyOutcomes.HoldOutcome | backend/app/livekit_telephony_controller.py:406-440 | a hold succeeds iff nothing is missing or recorded, both publish and four calls succeed; then the music is on, the two are cut off and nobody else is; otherwise the music is off |
| TelephonyOutcomes.ResumeOutcome | backend/app/livekit_telephony_controller.py:406-440 | a resume succeeds under the same conditions; then the music is off, the two hear each other and nothing else changes; otherwise the music is as before |
| TelephonyOutcomes.StartSucceedsIff | backend/app/livekit_telephony_controller.py:442-540 | a new consultation starts iff the command is complete, caller and human publish, the target is absent and ten calls succeed |
| TelephonyOutcomes.RepeatSucceedsIff | backend/app/livekit_telephony_controller.py:456-475 | during a consultation a start changes nothing and succeeds iff it repeats the recorded command |
| TelephonyOutcomes.CompleteSucceedsIff | backend/app/livekit_telephony_controller.py:550-594 | a completion succeeds iff there is a target, caller and target publish, the human is present and five calls succeed |
| TelephonyOutcomes.CancelSucceedsIff | backend/app/livekit_telephony_controller.py:596-638 | a cancel succeeds iff caller and human publish after the attempt to hang up and four calls succeed; then it connects them and clears record and music |
| TelephonyOutcomes.TargetIs | backend/app/livekit_telephony_controller.py:542-548 | the target is the recorded one, or else the first participant listed with the consultation prefix |
| TelephonyOutcomes.RecoveryOutcome | backend/app/livekit_telephony_controller.py:640-680 | a disconnect of one of the three ends record and music; if the target left, caller and human are connected again, otherwise the target is removed, and nothing else changes |
| Recovery.SuccessIsNeverReportedAsFailure | backend/app/livekit_telephony_controller.py:558-697 | after a successful complete or cancel, no interleaving of disconnects and recovery tasks emits a failure or touches the session, as long as no start intervenes |
| Recovery.EndingRun | backend/app/livekit_telephony_controller.py:640-697 | while the record is being cleared no move other than a start emits a failure |
| Recovery.FailedCancelIsRecovered | backend/app/livekit_telephony_controller.py:604-697 | after a failed cancel took the lock, under every schedule without a start and any other tasks: once the target's recovery task is finished no consultation is recorded and the music is off; at most one failure is reported, and exactly one if no other command begins |
| Recovery.TaskCanFinish | backend/app/livekit_telephony_controller.py:640-660 | with the lock free the two steps of a recovery task finish it |
| Recovery.WaitingTaskEndsAny | backend/app/livekit_telephony_controller.py:649-680 | a waiting task that gets the lock ends whatever consultation stands and reports it |
| Recovery.StaleTaskEndsNewConsultation | backend/app/livekit_telephony_controller.py:640-660 | a task left over from a finished consultation clears the next one |
| Recovery.ReplacementIsPossible | backend/app/livekit_telephony_controller.py:442-594 | a second operator can start a consultation after the first one completes, so that sequence exists |
| Backfill.Scan | backend/scripts/backfill_knowledge_embeddings.py:31-46 | the scan of a batch collects exactly the rows without a valid embedding, and their texts, in order |
| Backfill.PendingAtIsExact | backend/scripts/backfill_knowledge_embeddings.py:31-46 | the collected positions are increasing and are exactly those of rows without a valid embedding |
| Backfill.MarkRowsFailed | backend/scripts/backfill_knowledge_embeddings.py:49-53 | marking in place changes exactly the pending rows of the batch |
| Backfill.WriteVectors | backend/scripts/backfill_knowledge_embeddings.py:87-159 | writing in place gives each pending row its own vector and leaves the others |
| Backfill.FillIsExact | backend/scripts/backfill_knowledge_embeddings.py:87-159 | the k-th pending row receives the k-th vector; valid rows are untouched |
| Backfill.RunBatch | backend/scripts/backfill_knowledge_embeddings.py:87-159 | one batch changes its own rows only, as the batch function that is proved idempotent, and counts them |
| Backfill.RunBackfill | backend/scripts/backfill_knowledge_embeddings.py:67-159 | there is one batch per batch size of rows, rounded up; the committed store goes through exactly the states of the batches, with at most one commit each, ending with the full run; raises without a change on bad settings, and commits nothing in a dry run |
| BackfillConvergence.BatchIsIdempotent | backend/scripts/backfill_knowledge_embeddings.py:87-159 | running a batch again on its own result changes nothing |
| BackfillConvergence.FailedBatchKeepsEmbeddings | backend/scripts/backfill_knowledge_embeddings.py:49-53 | a failed call changes at most status and error, of the pending rows only |
| BackfillConvergence.RerunConverges | backend/scripts/backfill_knowledge_embeddings.py:67-159 | stopping after any number of committed batches and rerunning with the same answers reaches the store of one run |
| BackfillConvergence.FailuresLeaveNoTrace | backend/scripts/backfill_knowledge_embeddings.py:67-159 | after any passes, each stopped anywhere, with any batch size and failing on any of its calls, a run without failures reaches the store it alone would have reached |
| BackfillConvergence.RunIsIdempotent | backend/scripts/backfill_knowledge_embeddings.py:67-159 | a second complete run changes nothing |
| BackfillConvergence.RowsAreConserved | backend/scripts/backfill_knowledge_embeddings.py:67-159 | processed equals the number of rows and embedded + skipped + failed |
| BackfillConvergence.CleanRunIff | backend/scripts/backfill_knowledge_embeddings.py:67-159 | a run has no failure iff it leaves every row with a valid embedding |
| BackfillConvergence.CleanRunIsFinal | backend/scripts/backfill_knowledge_embeddings.py:67-159 | after a run without failures a rerun skips every row |
| BackfillConvergence.RunIsPointwise | backend/scripts/backfill_knowledge_embeddings.py:67-159 | with a provider that works text by text, the batch size does not matter |
| BackfillMeaning.RunStoresEmbeddings | backend/scripts/backfill_knowledge_embeddings.py:87-145 | each row that was not current stores the embedding of its own text twice, with present hash, model, dimension and status; the others are as they were |
| BackfillMeaning.CurrentIff | backend/scripts/backfill_knowledge_embeddings.py:31-46 | a row is left alone iff hash, model, dimension, status, stored vector and 1024 finite numbers are all in order |
| BackfillMeaning.RunCounts | backend/scripts/backfill_knowledge_embeddings.py:87-159 | skipped are the rows that were current, embedded those that became so, failed those that are not |
| BackfillMeaning.AnswerMeans | backend/scripts/backfill_knowledge_embeddings.py:107-121 | an answer is accepted iff it has one vector of 1024 finite numbers per text, and refused with the reason of its defect |
| BackfillMeaning.FailedRowMeans | backend/scripts/backfill_knowledge_embeddings.py:49-53 | a failed row keeps everything but status and error, which is the reason or a default, cut to 120 characters |
| Redaction.SensitiveValues | backend/scripts/speedaf_full_uat_probe.py:25-34 | the loop with its seen-set computes the list that SensitiveShape characterises |
| Redaction.SensitiveShape | backend/scripts/speedaf_full_uat_probe.py:25-34 | the collected values are distinct, and are exactly the trimmed inputs of four characters or more |
| Redaction.RenderRedactedReport | backend/scripts/speedaf_full_uat_probe.py:37-52 | the reported count is that of the first pass, and the text is the second dump with every value replaced in turn |
| Redaction.AbsentIsNoMatch | backend/scripts/speedaf_full_uat_probe.py:45-48 | skipping an absent value is the same as replacing it; a present one is counted and leaves a marker |
| Redaction.ReplaceFirst | backend/scripts/speedaf_full_uat_probe.py:45-51 | replacement puts a marker at the first occurrence, keeps what stands before it and goes on behind it |
| Redaction.MatchesMeasure | backend/scripts/speedaf_full_uat_probe.py:46-48 | the count is the number of values taken out and of markers put in |
| Redaction.FirstValueFirst | backend/scripts/speedaf_full_uat_probe.py:45-51 | values are replaced and counted in the order of the list |
| Redaction.CleanedMeans | backend/scripts/speedaf_full_uat_probe.py:29 | a missing value is empty and a present one loses exactly the spaces at its ends |
| Redaction.SensitiveGrows | backend/scripts/speedaf_full_uat_probe.py:25-34 | the values are collected in the order in which they first come |
| Redaction.OccurrenceIsOld | backend/scripts/speedaf_full_uat_probe.py:51 | replacing a value creates no occurrence of one that is clear of the marker, and leaves none of itself if it is |
| Redaction.AllAreGone | backend/scripts/speedaf_full_uat_probe.py:50-51 | a value clear of the marker, brackets or not, occurs nowhere in the output, whatever else is in the list and in whatever order |
| Redaction.AlwaysGoneIff | backend/scripts/speedaf_full_uat_probe.py:50-51 | a value is removed from every text by every list that names it iff, laid over the marker in any way, it differs from it |
| Redaction.CompleteIff | backend/scripts/speedaf_full_uat_probe.py:50-51 | a bracket-free list is removed completely from every text iff none of its values is part of REDACTED |
| Redaction.BracketsCanSurvive | backend/scripts/speedaf_full_uat_probe.py:50-51 | a value with a bracket can survive though it is no part of REDACTED |
| Redaction.RenderedReportIsClean | backend/scripts/speedaf_full_uat_probe.py:25-52 | no collected value of that kind survives in the rendered report |
| QueueDepth.Exporter.PublishFamilies | backend/scripts/run_worker.py:328-339 | the nested loops publish the counts of one group in order, up to the call that raises |
| QueueDepth.Exporter.RecordIfDue | backend/scripts/run_worker.py:308-366 | one call changes gauges, remembered labels and last time as the step that the run theorems are about |
| QueueDepth.AgreementIff | backend/scripts/run_worker.py:324-353 | a completed snapshot leaves every label at its count and all others at zero iff every nonzero gauge was remembered or is written again |
| QueueDepth.GaugesAgree | backend/scripts/run_worker.py:324-353 | after any run of calls none of which raises, the gauges agree with the latest snapshot |
| QueueMeaning.AgreementReports | backend/scripts/run_worker.py:328-353 | gauges that agree with a snapshot read its count for every queue and channel, the two aggregates theirs, and zero everywhere else |
| QueueMeaning.GaugesReport | backend/scripts/run_worker.py:308-353 | after any run of calls none of which raises, every gauge reads what the latest snapshot counts |
| QueueMeaning.CallMeans | backend/scripts/run_worker.py:313-353 | only a due call of the background worker does anything; it notes the time, and one that completes remembers exactly the labels of its counts |
| QueueDepth.FailureKeepsCoverIff | backend/scripts/run_worker.py:324-366 | an exception part-way keeps the remembered labels sufficient iff no new label was left at a nonzero count |
| QueueDepth.FailureStrands | backend/scripts/run_worker.py:324-366 | one published count followed by an exception breaks it |
| QueueDepth.StrandedStays | backend/scripts/run_worker.py:351-353 | such a gauge keeps its value through every later run that does not mention its label |
| QueueDepth.CountIsExact | backend/scripts/run_worker.py:328-350 | when labels do not collide each label reads its own count |
| QueueDepth.FitLabelsNeverCollide | backend/scripts/run_worker.py:329-347 | distinct names that fit the 80 characters beside their prefix, and are not `all`, never collide after truncation |

## Left out

* Text parsing in the gate (control blocks, manifests, comment headings, links): the records hold the parsed fields. Lists of blockers are free of duplicates, as their parser makes them (`scripts/ci/agent_coordination_model.py:451`).
* The policy adapters that replace functions of the gate at start-up and rewrite manifests; of them only the stack-parent policy is modelled.
* Details texts of findings and the JSON and Markdown forms of the report: a finding keeps severity, code and subject.
* The `?` and `[` wildcards of `fnmatch`: safe tokens contain neither.
* Lower-casing beyond ASCII letters in resource names and lifecycle words.
* GitHub entries that are not mappings, and pull requests appearing in the issue listing, which the builder filters out.
- Exclusion.PassingPrsExclude: speaks of one unchanging repository state with unique numbers, read at two clock times, because each evaluation takes its own snapshot.
* Waiting for a participant and for its tracks is one remote call each; tracks are kept per participant, as edges between subscriber and publisher.
- Recovery.SuccessIsNeverReportedAsFailure: steps are those between lock acquisitions; remote calls inside one command are not interleaved with other commands.
* A participant that joins or comes back during a call, other than the dialled target; it would hear and be heard until the next command.
- TelephonySafety.RunIsSafe: commands run one after another, with caller and human fixed; hold and consultation use two locks, and their overlap during the set-up of a consultation is not modelled.
- TelephonySafety.CompletionIsAtomic: caller, human and target are distinct participants, as the room's identities are.
- TelephonySafety.CancellationOutcome: the recorded target has a non-empty identity, as every derived identity has.
- PathOverlap.OverlapHasWitness: safe tokens are the only specifications a manifest admits; on other text normalising twice can differ from normalising once.
* DTMF publication, command parsing, event publication other than the failure event, and closing the controller.
* The `embedded_at` timestamps, the row query with its limit, SQL dialects, and failures of the vector write or of a commit.
- Redaction.CompleteIff: exact for lists without brackets; with brackets the order of a list matters, and the exact condition is the one for all lists in AlwaysGoneIff.
* The JSON dump of the probe report: an arbitrary function of the replacement count. Characters are compared as they stand in the dumped text.
* The compatibility counter beside each gauge, and gauges of other processes summed into the same metric.
