# Verified models of CanopyCMS's state-keeping code

CanopyCMS keeps its state in files that several processes share: branch workspaces on a network
file system, generation markers and snapshots beside them, content files whose names carry ids.
This project models the code that keeps that state consistent and proves what it guarantees, for
every input, every interleaving and every crash.

`dafny verify dfyconfig.toml` checks everything.

**Branch provisioning** (`Provision*.dfy`). A step system over a directory of named inodes with
POSIX `rename` (IEEE Std 1003.1-2017, System Interfaces): any number of provisioners, worker
quarantines and repair recoveries, age sweeps, environment edits, deletes and purges, and a crash
between any two file-system operations. `ProvisionState` holds the names, trees and
classification, `ProvisionSteps` the steps, `ProvisionInvariant`, `ProvisionFiles` and
`ProvisionPreserves` the invariant and its preservation, `ProvisionEffects` the one change each
step makes, `ProvisionTheorems` and `ProvisionHistory` what follows over whole runs. Safety alone
would hold of processes that do nothing or answer anything, so `ProvisionAlone` says what an
undisturbed provisioner, quarantine or recovery achieves, step by step, `ProvisionAnswers` what each
answers for every kind of thing that can be at its branch's name, and `ProvisionFailures` what it
answers and leaves behind when a call of its own fails. Assumed: the
provisioning lock excludes (an abandoned one may be broken), a builder takes no step more than
900 s after it started, `writeId`s and stamped names are not drawn twice, and the environment
neither leaves an empty directory at a branch name nor forges another request's `writeId`. The
fields `home`, `used`, `writeIds`, `seated` and `published` of `Files` are history: no step's
choice depends on what they say of the past, except that fresh names and ids are not in them.

**Stamps and the age sweep** (`DirStamps.dfy`). Names, dates and the sweep at string level, with
the calendar of ECMA-262 2024 section 21.4.1.

**Generation markers and their two caches** (`GenerationMarker.dfy`, `RegistryCache.dfy`,
`RegistryAnswers.dfy`, `SchemaCache.dfy`, `SchemaAnswers.dfy`). Documents are histories of versions
and each token is remembered with the versions there were when it was written, so that "at least as
new as" can be said per document. Scans read one document at a time, snapshots land in any order, processes die. The two `Answers`
modules say what whole calls answer.

**The content-id index** (`Filenames.dfy`, `IndexSpec.dfy`, `IndexScan.dfy`, `IndexTree.dfy`,
`ContentIdIndex.dfy`). The filename grammar, the index as four maps with the operations on them,
the result of a scan in any listing order, what that is in terms of the chains of names in the
tree alone, and the class with its location objects, changed in place and proved against those maps.

**Entry links** (`TextPatterns.dfy`, `LinkGrammar.dfy`, `CodeRegions.dfy`, `CodeSpans.dfy`,
`EntryLinks.dfy`, `Unwrapping.dfy`, `Resolving.dfy`). The code splitter, the pruned bracket search
and its cost, what resolving keeps and what it must not show. `LinkGrammar`, `CodeSpans`,
`Unwrapping` and `Resolving` say on the text itself what is a link, what is code, and what is left.

**Tree and listing** (`ContentSchema.dfy`, `Sorting.dfy`, `ContentTree.dfy`). Flattening, the walk
by parent and the filter by path prefix, shown to hold the same entries.

**Small state machines** (`ReactiveSecret.dfy`, `BranchMetadata.dfy`, `DevWatcher.dfy`,
`ProcessExits.dfy`).

Findings, each stated as a lemma:

- Asked for a root above a two-segment content root, the listing gives entries and the tree gives
  none; they agree exactly when the root asked for is not above the content root, or no collection
  has an entry to show (`ContentTree.AgreeIff`, `ContentTree.RootAboveTheContentRoot`).
- Building the content-id index twice records every kept path as dropped
  (`IndexScan.SecondScanQuarantinesKept`). Building into an index that holds something works exactly
  when all it holds is overtaken by the scan (`IndexScan.ScanIndexesIff`).
- `updatePath` leaves the index consistent exactly when the new path is not another id's
  (`IndexSpec.UpdatePathKeepsIff`, `IndexSpec.RepointedOntoAnother`).
- The `entryTypeName` argument of `extractSlugFromFilename`, documented as stripping the type
  explicitly, never changes its result (`Filenames.EntryTypeNameIsRedundant`).
- A stamped name made in a year outside 0 to 9999 gives no time at all, so it is never swept
  (`DirStamps.StampRoundTrip`, `DirStamps.YearTenThousand`).

## Model

| member | source | states |
|---|---|---|
| ProvisionInvariant.InitInv | packages/canopycms/src/branch-provisioning.ts:4-13 | a branches root nothing has happened in meets the invariant |
| ProvisionPreserves.StepKeeps | packages/canopycms/src/branch-provisioning.ts:305-376 | every step of every process, and every crash, edit, delete and sweep, keeps the invariant: names without branch.json are accounted for, provisioned workspaces are whole, own `writeId`s are where the publish put them, a candidate's name stays free |
| ProvisionPreserves.BeginKeeps | packages/canopycms/src/branch-workspace.ts:129-193 | the early answers, which `ProvisionAnswers.TakenNameAnswers` and `LateAnswers` give, and the fresh staging directory keep the invariant |
| ProvisionPreserves.BuildKeeps | packages/canopycms/src/branch-provisioning.ts:421-462 | each stage of a build, in a directory that may be swept under it, keeps the invariant |
| ProvisionPreserves.PublishKeeps | packages/canopycms/src/branch-provisioning.ts:521-562 | rename, lost reply, refusal and inspection keep the invariant |
| ProvisionPreserves.ClearKeeps | packages/canopycms/src/branch-provisioning.ts:305-359 | a quarantine's stat, take, judgement, trash and move back keep the invariant |
| ProvisionPreserves.RecoveryKeeps | packages/canopycms/src/branch-provisioning.ts:603-630 | a recovery's read, lock, check, restore and trash keep the invariant |
| ProvisionEffects.Effect | packages/canopycms/src/branch-provisioning.ts:305-562 | every step makes at most one change to the files, and the change says which step of whom made it |
| ProvisionTheorems.RunInv | packages/canopycms/src/branch-provisioning.ts:4-19 | the invariant holds in every state of every run |
| ProvisionTheorems.BareIsNeverNew | packages/canopycms/src/branch-provisioning.ts:4-13 | a directory at a branch name without branch.json is the same inode that the start or an edit left there without one |
| ProvisionTheorems.NothingPartial | packages/canopycms/src/branch-provisioning.ts:521-562 | what reaches a branch name is a whole workspace with the caller's branch.json, or what this quarantine took from that name, or a directory whose branch.json names it; contents untouched on the way |
| ProvisionTheorems.Conserved | packages/canopycms/src/branch-provisioning.ts:305-376 | quarantine, recovery and publish rename non-empty directories and never lose or alter one |
| ProvisionTheorems.QuarantineTrashesResidue | packages/canopycms/src/branch-provisioning.ts:305-359 | what a quarantine trashes is residue at that moment, the inode it was sent for, and quiet for the asker's minimum |
| ProvisionTheorems.GivenUpIff | packages/canopycms/src/branch-provisioning.ts:362-376 | a candidate is given up exactly when it is the expected inode, residue and quiet |
| ProvisionTheorems.NoStranding | packages/canopycms/src/branch-provisioning.ts:328-338 | while a live holder has a candidate its name stays free, so moving it back is never blocked |
| ProvisionTheorems.LiveBuildIsNotSwept | packages/canopycms/src/branch-provisioning.ts:53-60 | no sweep may remove from the staging directory of a builder within its lifetime |
| ProvisionTheorems.BuilderFindsItsStaging | packages/canopycms/src/branch-provisioning.ts:421-462 | a builder that may still step finds its own staging directory at the stage it left it |
| ProvisionHistory.NoLandingOver | packages/canopycms/src/branch-provisioning.ts:521-539 | a publish never renames over a provisioned workspace |
| ProvisionHistory.LastRemoval | packages/canopycms/src/branch-provisioning.ts:521-539 | a provisioned workspace no longer at its name has a last removal: a delete, a purge or a take after which it is not there again |
| ProvisionHistory.LandingPublishes | packages/canopycms/src/branch-provisioning.ts:527-531 | a landing puts at the name a whole workspace with the lander's own branch.json |
| ProvisionHistory.OneLandingBetweenRemovals | packages/canopycms/src/branch-provisioning.ts:521-562 | between two landings of one branch the first workspace leaves its name, by a delete, a purge or a quarantine's take, and is not there again when the second lands; a quarantine that took it has by then died, given it up or failed to put it back |
| ProvisionHistory.PublishedMeansLanded | packages/canopycms/src/branch-provisioning.ts:517-536 | "published" is answered only after the caller's own workspace landed, lost replies included |
| ProvisionHistory.TwoPublishedNeedRemoval | packages/canopycms/src/branch-workspace.ts:246-268 | two callers each told "published" for a branch, at any two times, the first perhaps dead by the second, landed one after the other, and between the two landings the first one's workspace left the name for good |
| ProvisionHistory.ExistsMeansSeen | packages/canopycms/src/branch-provisioning.ts:541-553 | "exists" from a publish means branch.json was at the name while the caller held its lock |
| ProvisionHistory.RecoveryTrashesWhy | packages/canopycms/src/branch-provisioning.ts:603-630 | a recovery trashes valid branch.json only when the name does not match or was found taken |
| ProvisionHistory.TakenMeansOccupied | packages/canopycms/src/branch-provisioning.ts:618-624 | "taken" means the name was occupied when the recovery looked under that branch's lock |
| ProvisionAlone.AloneStages | packages/canopycms/src/branch-provisioning.ts:421-462 | undisturbed, seven steps leave a whole staged workspace with the caller's branch.json and touch nothing else |
| ProvisionAlone.AloneLands | packages/canopycms/src/branch-provisioning.ts:527-531 | undisturbed, a staged workspace lands at a free name or over an empty directory, its staging name is gone and the lock let go |
| ProvisionAlone.AloneInspects | packages/canopycms/src/branch-provisioning.ts:541-553 | what blocks the rename is answered "exists", "busy" or sent to quarantine, by what it holds, with nothing changed |
| ProvisionAlone.AloneTakes | packages/canopycms/src/branch-provisioning.ts:305-338 | a quarantine moves the directory aside under its own name and nothing else |
| ProvisionAlone.AloneKeeps | packages/canopycms/src/branch-provisioning.ts:328-359 | a directory judged live, corrupt, protected, foreign or too young is back at its name, everything as it was, and the answer says why |
| ProvisionAlone.AloneTrashes | packages/canopycms/src/branch-provisioning.ts:340-359 | quiet residue ends in trash with its contents, its branch name free, and the asker goes on |
| ProvisionAlone.AloneCreates | packages/canopycms/src/branch-workspace.ts:129-268 | ten steps from the first look to "published": the new workspace whole at the branch name, the lock free, nothing else moved |
| ProvisionAlone.RecoveryRestores | packages/canopycms/src/branch-provisioning.ts:603-630 | an undisturbed recovery puts a matching candidate back at its free branch name and lets the lock go |
| ProvisionAlone.RecoveryDiscards | packages/canopycms/src/branch-provisioning.ts:603-630 | a candidate without valid branch.json, or of another name's bounded form, goes to trash with its contents |
| ProvisionAnswers.TakenNameAnswers | packages/canopycms/src/branch-workspace.ts:129-193 | whose name is taken is answered by what is there and changes nothing: "exists" for branch.json, an error for a malformed one, "busy" for `branch.json.corrupt-*` or for residue that is locked or not yet quiet, "occupied" for another repository; only quiet residue lets it build |
| ProvisionAnswers.LateAnswers | packages/canopycms/src/branch-workspace.ts:345-363 | a branch.json that appears on the way is answered by what it says when read again |
| ProvisionAnswers.LoserAtCheckAnswersExists | packages/canopycms/src/branch-workspace.ts:225-244 | a builder that finds it has lost answers "exists", its staging directory gone and nothing else moved |
| ProvisionAnswers.LoserAtPublishAnswersExists | packages/canopycms/src/branch-workspace.ts:246-264 | so does one whose publish finds it, its lock let go too |
| ProvisionAnswers.LostReplyAnswersPublished | packages/canopycms/src/branch-provisioning.ts:532-536 | a rename that landed without its reply is answered "published", by the caller's own `writeId` |
| ProvisionAnswers.NotOursIsFailure | packages/canopycms/src/branch-provisioning.ts:532-538 | a missing staging directory without that `writeId` at the name is a failure |
| ProvisionAnswers.KeptAnswers | packages/canopycms/src/branch-provisioning.ts:541-562 | what a publish answers for each kind of directory its quarantine put back, with nothing changed |
| ProvisionAnswers.QuietResidueIsReplaced | packages/canopycms/src/branch-provisioning.ts:521-562 | quiet residue in the way of a publish ends in trash with its contents, the workspace at its name, the lock free, the answer "published" |
| ProvisionAnswers.WorkerKeeps | packages/canopycms/src/branch-provisioning.ts:305-359 | a worker's quarantine of anything but residue quiet for fifteen minutes leaves names, contents and locks as they were |
| ProvisionAnswers.WorkerTrashes | packages/canopycms/src/branch-provisioning.ts:305-359 | residue quiet for fifteen minutes ends in trash with its contents |
| ProvisionAnswers.RecoveryWaits | packages/canopycms/src/branch-provisioning.ts:608-617 | a recovery whose branch is locked leaves its candidate where it is |
| ProvisionAnswers.RecoveryYields | packages/canopycms/src/branch-provisioning.ts:618-629 | one whose branch name is taken lets the lock go and trashes its candidate |
| ProvisionFailures.RefusalIsTold | packages/canopycms/src/branch-workspace.ts:246-264 | an error, "busy" or "occupied" from a publish is answered with the lock free, the staging directory gone and nothing else changed |
| ProvisionFailures.NoStagingIsFailure | packages/canopycms/src/branch-provisioning.ts:421-462 | where no staging directory can be made the answer is an error and nothing is changed |
| ProvisionFailures.BuildFailureIsTold | packages/canopycms/src/branch-provisioning.ts:421-462 | a build that fails is an error, one that cannot get the lock in time is "busy", its staging directory gone either way |
| ProvisionFailures.MissingStagingIsFailure | packages/canopycms/src/branch-provisioning.ts:421-462 | a build whose staging directory is gone is an error |
| ProvisionFailures.PublishFailureIsTold | packages/canopycms/src/branch-provisioning.ts:527-539 | a rename that fails for another reason than what is at the name is an error, even where it landed all the same |
| ProvisionFailures.QuarantineFailureIsTold | packages/canopycms/src/branch-provisioning.ts:320-350 | so is a quarantine that can neither move aside what is in the way nor trash it |
| ProvisionFailures.UnjudgedIsPutBack | packages/canopycms/src/branch-provisioning.ts:328-345 | what cannot be judged is back at its name before the error is answered |
| ProvisionFailures.WorkerWaits | packages/canopycms/src/branch-provisioning.ts:305-313 | a worker that cannot get the lock changes nothing |
| DirStamps.YearIsUnique | packages/canopycms/src/branch-provisioning.ts:94-100 | a day falls in one calendar year only |
| DirStamps.FieldsRoundTrip | packages/canopycms/src/branch-provisioning.ts:94-117 | the UTC fields of a time give back the time cut to the second |
| DirStamps.TheEpoch | packages/canopycms/src/branch-provisioning.ts:94-100 | the first day is 1970-01-01 |
| DirStamps.NextDay | packages/canopycms/src/branch-provisioning.ts:94-100 | a day later it is the calendar's next day: of the month, the next month's first, or the new year's |
| DirStamps.StampRoundTrip | packages/canopycms/src/branch-provisioning.ts:92-127 | parsing a stamped name gives its creation time cut to the second for years 0 to 9999, and nothing for any other |
| DirStamps.StampReadsBack | packages/canopycms/src/branch-provisioning.ts:94-100 | a stamp has the shape that is parsed, and its digits are the UTC fields of its time |
| DirStamps.Root.SweepByAge | packages/canopycms/src/branch-provisioning.ts:572-596 | exactly the due names whose removal succeeds are gone, and each due name is reported once in listing order |
| DirStamps.DueByAge | packages/canopycms/src/branch-provisioning.ts:579-581 | a stamped name is due exactly when its age from its second reaches the rule's limit |
| DirStamps.YearTenThousand | packages/canopycms/src/branch-provisioning.ts:94-127 | a staging name made as the year 10000 begins gives no time and is never due, whatever the rules |
| DirStamps.YoungIsKept | packages/canopycms/src/branch-provisioning.ts:102-117 | nothing whose real age is at most the limit less a second is removed |
| DirStamps.LiveStagingIsKept | packages/canopycms/src/branch-provisioning.ts:53-60 | a staging name of a builder within 900 s is never due, for branches and for settings |
| DirStamps.BranchSweep | packages/canopycms/src/branch-provisioning.ts:641-671 | in the branches root a stamped name is due exactly as a `.prov-` of twenty minutes or a `.deleting-` of ten |
| DirStamps.SettingsSweep | packages/canopycms/src/branch-provisioning.ts:641-671 | beside the settings workspace, as a `.prov-settings-` of twenty minutes or a `.trash-settings-` of thirty days |
| DirStamps.RuleIsFirst | packages/canopycms/src/branch-provisioning.ts:579 | a name's rule is the first whose prefix it starts with |
| DirStamps.SweepReports | packages/canopycms/src/branch-provisioning.ts:577-595 | the reports are those of the due names, in listing order, "removed" or "failed" by whether the removal did |
| GenerationMarker.MutateGrows | packages/canopycms/src/resource-generation.ts:10-35 | a change adds a version and takes nothing from what anyone has seen |
| GenerationMarker.BumpGrows | packages/canopycms/src/resource-generation.ts:65-84 | a bump vouches for every change before it, under a token nothing recorded carries |
| RegistryCache.ReadNextOk | packages/canopycms/src/branch-registry.ts:297-340 | reading one listed directory keeps the listing exact for the versions it was read from |
| RegistryCache.StepKeeps | packages/canopycms/src/branch-registry.ts:112-290 | every step of every list, invalidate and rebuild keeps snapshots no older than their token vouches for |
| RegistryCache.ServedSnapshotIsFresh | packages/canopycms/src/branch-registry.ts:112-131 | a served snapshot is at least as new as every change whose bump had landed when the marker was read, with nothing settled missing or left over |
| RegistryCache.RebuildIsFresh | packages/canopycms/src/branch-registry.ts:252-290 | a rebuild's own result is as new as what had landed when it read the marker, even unreadable |
| RegistryCache.InvalidateRebuildsAfterItsBump | packages/canopycms/src/branch-registry.ts:217-232 | the rebuild `invalidate` ends with saw every change made before this call's own bump landed, whatever was in flight |
| RegistryCache.SinceIsTheBump | packages/canopycms/src/branch-registry.ts:217-219 | over any run, what an invalidate remembers is every version there was at the step that wrote its own token |
| RegistryCache.LateSnapshotIsStale | packages/canopycms/src/branch-registry.ts:253-256 | once a newer token is written a stored snapshot is not served, however late it landed |
| RegistryCache.QuietRegistryIsExact | packages/canopycms/src/branch-registry.ts:71-82 | once changes have stopped and their bumps landed, a served snapshot is exactly the branches there are |
| RegistryCache.WarmListIsServed | packages/canopycms/src/branch-registry.ts:112-131 | a stored snapshot under the live token is served as it stands |
| RegistryCache.ColdListRebuilds | packages/canopycms/src/branch-registry.ts:234-250 | without a current one the list joins the rebuild in flight, or starts one where there is none; what it then answers is `RegistryAnswers.WaitingListAnswers` |
| RegistryCache.RebuildAlone | packages/canopycms/src/branch-registry.ts:252-290 | an undisturbed rebuild ends with exactly the branches there are, stored under the live token |
| RegistryAnswers.ColdListAnswers | packages/canopycms/src/branch-registry.ts:112-131 | undisturbed, a list without a current snapshot answers with exactly the branches there are, each with its branch.json, and stores them |
| RegistryAnswers.StoredIsRead | packages/canopycms/src/branch-registry.ts:112-131 | the next list under the same marker is answered with what was stored |
| RegistryAnswers.InvalidateAnswers | packages/canopycms/src/branch-registry.ts:217-232 | undisturbed, an invalidate returns with exactly the branches there are stored under its own new token |
| RegistryAnswers.WaitingListAnswers | packages/canopycms/src/branch-registry.ts:234-250 | over any run a waiting list answers with the branches of the rebuild it waited for, and throws exactly when that one failed or died |
| RegistryAnswers.InvalidatedMeansRebuilt | packages/canopycms/src/branch-registry.ts:217-232 | over any run an invalidate returns only after a rebuild that, if it has a result, is as new as all there was at this call's own bump |
| RegistryAnswers.OneNameIsRead | packages/canopycms/src/branch-registry.ts:297-340 | a hidden name and one that was no directory when listed are passed over, any other adds its branch if it has branch.json by then |
| RegistryAnswers.BrokenRebuildFails | packages/canopycms/src/branch-registry.ts:252-290 | a rebuild that cannot list the directories or store its result fails, stores nothing and leaves the slot free |
| RegistryAnswers.UnreadableRebuildServes | packages/canopycms/src/branch-registry.ts:262-268 | one that could not read the marker has its listing as result and stores nothing |
| SchemaCache.StepKeeps | packages/canopycms/src/branch-schema-cache.ts:245-451 | every step keeps entries as resolved under their token and memos equal to the parsed file |
| SchemaCache.ServedSnapshotIsFresh | packages/canopycms/src/branch-schema-cache.ts:258-291 | a served entry matches the running registry and was resolved from files as new as every landed bump |
| SchemaCache.FreshAnswerIsFresh | packages/canopycms/src/branch-schema-cache.ts:352-451 | a fresh resolve is as new as what had landed when it read the marker, persisted or not |
| SchemaCache.MemoIsTheParsedFile | packages/canopycms/src/branch-schema-cache.ts:324-344 | with or without its memo a process gets exactly what parsing the open file gives |
| SchemaCache.WarmCallServes | packages/canopycms/src/branch-schema-cache.ts:258-291 | an entry of this version and registry under the live token is opened, parsed and servable |
| SchemaCache.ResolvePersists | packages/canopycms/src/branch-schema-cache.ts:399-447 | an undisturbed resolve leaves the new entry as the file, under the token read before it, and as the memo |
| SchemaAnswers.WarmCallAnswers | packages/canopycms/src/branch-schema-cache.ts:245-291 | a call that finds an entry of this release, registry and token answers with what parsing the file gives, and writes nothing |
| SchemaAnswers.StaleCallResolves | packages/canopycms/src/branch-schema-cache.ts:258-291 | an entry of another release, registry or token is never answered with |
| SchemaAnswers.ColdCallResolves | packages/canopycms/src/branch-schema-cache.ts:258-291 | without a file the call resolves |
| SchemaAnswers.WholeResolve | packages/canopycms/src/branch-schema-cache.ts:352-451 | undisturbed, a resolve answers with the schema of exactly the collection files there are, and leaves that as file and memo under the token read before it |
| SchemaAnswers.UnreadablePersistsNothing | packages/canopycms/src/branch-schema-cache.ts:399-447 | without a readable marker it answers all the same and leaves file, store and memo alone |
| SchemaAnswers.UnusableFileResolves | packages/canopycms/src/branch-schema-cache.ts:258-291 | a file that cannot be opened or does not parse is resolved like none |
| SchemaAnswers.BrokenResolveFails | packages/canopycms/src/branch-schema-cache.ts:399-447 | a resolve that fails, in resolving or in storing, answers with an error and leaves the file in place |
| Filenames.NameRoundTrip | packages/canopycms/src/content-id-index.ts:478-607 | all extractors recover the parts an entry filename was made of, for any slug, dots included, in lower case |
| Filenames.ParsedNameIsTyped | packages/canopycms/src/utils/typed-filename.ts:36-63 | a name the parser accepts is made of the parts it gives back |
| Filenames.ExtractorsAgree | packages/canopycms/src/content-id-index.ts:487-607 | parser and extractors agree on every filename |
| Filenames.EntryTypeNameIsRedundant | packages/canopycms/src/content-id-index.ts:572-592 | naming the entry type never changes the slug |
| Filenames.DirectoryRoundTrip | packages/canopycms/src/content-id-index.ts:595-600 | a collection directory's name gives back its slug and id and no type |
| Filenames.ResolveCollectionPath | packages/canopycms/src/content-id-index.ts:512-544 | the loop follows the first matching directory of each segment |
| Filenames.ResolvedPathMapsBack | packages/canopycms/src/content-id-index.ts:42-48 | the path found for a request maps back to the request in lower case |
| Filenames.FoundIfThere | packages/canopycms/src/content-id-index.ts:520-543 | where no siblings share a logical name, a collection is found exactly when it is there |
| IndexSpec.AddKeeps | packages/canopycms/src/content-id-index.ts:381-409 | adding, refused or not, keeps the maps inverse, the groups a partition and every id its path's own |
| IndexSpec.RemoveKeeps | packages/canopycms/src/content-id-index.ts:415-432 | so does removing |
| IndexSpec.RemoveUndoesAdd | packages/canopycms/src/content-id-index.ts:381-432 | removing what was added gives back the index as it was |
| IndexSpec.AddAdds | packages/canopycms/src/content-id-index.ts:381-409 | after an accepted add the id of the path is located there with what was given, and everything else is as it was |
| IndexSpec.RemoveRemoves | packages/canopycms/src/content-id-index.ts:415-432 | after a remove the id and its path are gone and everything else is as it was |
| IndexSpec.UpdateMoves | packages/canopycms/src/content-id-index.ts:438-475 | after a repointing the id is found at its new path and not at its old one, and the others are as they were |
| IndexSpec.LessIff | packages/canopycms/src/content-id-index.ts:117-125 | the order of paths is that of the first character where they part, a path before its own extensions |
| IndexSpec.UpdatePathKeepsIff | packages/canopycms/src/content-id-index.ts:438-475 | repointing keeps the index consistent exactly when the new path is not another id's |
| IndexSpec.RepointedOntoAnother | packages/canopycms/src/content-id-index.ts:438-475 | two added collection directories, one repointed to the other's path: a concrete index left inconsistent |
| IndexSpec.UpdatePathKeeps | packages/canopycms/src/content-id-index.ts:438-475 | a new path that embeds the same id is always safe |
| IndexSpec.OperationsKeep | packages/canopycms/src/content-id-index.ts:377-475 | every run of operations keeps the index consistent and never touches the quarantine record |
| IndexScan.ItemsAreDistinct | packages/canopycms/src/content-id-index.ts:194-215 | no two indexed names of a tree share a path |
| IndexScan.ScanKeepsSmallest | packages/canopycms/src/content-id-index.ts:117-125 | after scanning any tree into an empty index each id has its smallest path, its quarantine record is the others, and nothing else is there |
| IndexScan.ReaddirOrderIsIrrelevant | packages/canopycms/src/content-id-index.ts:194-263 | hosts listing the same tree in different orders build the same four maps |
| IndexScan.SecondScanQuarantinesKept | packages/canopycms/src/content-id-index.ts:223-237 | a second scan records every path of every id as dropped, the kept one included |
| IndexScan.ScanIndexesIff | packages/canopycms/src/content-id-index.ts:117-157 | scanning into any consistent index gives the scan's guarantees exactly when every path it held, kept or quarantined, is one the scan meets under that id and not the smallest |
| IndexScan.SecondScanIndexesIff | packages/canopycms/src/content-id-index.ts:223-237 | scanning the same files twice keeps the guarantees only where there are no files |
| IndexScan.ScanEmbeds | packages/canopycms/src/content-id-index.ts:205-221 | a scan leaves an index the operations keep consistent |
| IndexTree.ItemsIff | packages/canopycms/src/content-id-index.ts:194-263 | what a scan meets is exactly what the tree has unhidden chains of names for, filed by those names |
| IndexTree.EntryIsFiled | packages/canopycms/src/content-id-index.ts:205-249 | a file `{type}.{slug}.{id}.{ext}` in a chain of collection directories is an entry with that id, path and slug, in the collection their names without ids make |
| IndexTree.CollectionIsFiled | packages/canopycms/src/content-id-index.ts:205-221 | a directory `{name}.{id}` in such a chain is filed as a collection |
| IndexTree.ScanIndexesTree | packages/canopycms/src/content-id-index.ts:117-157 | a scan into an empty index holds what the tree has names for and nothing else: the smallest path of each id, exactly the others dropped |
| IndexTree.RepointedEntryFollows | packages/canopycms/src/content-id-index.ts:438-475 | an entry repointed to such a file has that file's slug and its directories' collection |
| ContentIdIndex.ContentIdIndex.ScanName | packages/canopycms/src/content-id-index.ts:208-251 | the object code does to the maps what the specification of one scanned name says |
| ContentIdIndex.ContentIdIndex.ScanDirectory | packages/canopycms/src/content-id-index.ts:194-263 | the recursive scan does to the maps what scanning the tree's names one by one in listing order does |
| ContentIdIndex.ContentIdIndex.BuildFromFilenames | packages/canopycms/src/content-id-index.ts:155-157 | from an empty index the object ends as an index of the tree: exactly what the tree has names for, the smallest path of each id kept and the others on record; from any other, as the scan of its old contents, with the scan's guarantees exactly when all it held is overtaken |
| ContentIdIndex.ContentIdIndex.AddLocation | packages/canopycms/src/content-id-index.ts:381-409 | the whole new index, or the refusal and no change |
| ContentIdIndex.ContentIdIndex.RemoveLocation | packages/canopycms/src/content-id-index.ts:415-432 | the whole new index, unchanged for an unknown id |
| ContentIdIndex.ContentIdIndex.UpdateLocation | packages/canopycms/src/content-id-index.ts:438-475 | the one location object moves, its group follows, an unknown id changes nothing |
| ContentIdIndex.ContentIdIndex.FindById | packages/canopycms/src/content-id-index.ts:300-302 | finds an id's location exactly when it is indexed |
| ContentIdIndex.ContentIdIndex.FindByPath | packages/canopycms/src/content-id-index.ts:305-307 | a path is found under the id located there and no other |
| ContentIdIndex.ContentIdIndex.GetAllLocations | packages/canopycms/src/content-id-index.ts:310-312 | every location, each once |
| ContentIdIndex.ContentIdIndex.GetEntriesInCollection | packages/canopycms/src/content-id-index.ts:315-330 | equals a linear filter by collection, each entry once |
| ContentIdIndex.ContentIdIndex.GetEntriesInCollectionTree | packages/canopycms/src/content-id-index.ts:337-353 | equals a linear filter by collection prefix, each entry once |
| ContentIdIndex.ContentIdIndex.GetAllEntryLocations | packages/canopycms/src/content-id-index.ts:362-375 | equals a linear filter for entries in some collection, each once |
| ContentIdIndex.ContentIdIndex.GetDuplicateFor | packages/canopycms/src/content-id-index.ts:285-297 | the record of a duplicated id, with its dropped paths in ascending order |
| CodeRegions.SplitByCodeRegions | packages/canopycms/src/entry-link-resolver.ts:237-320 | the index loops end and give the parts of the specification |
| CodeRegions.PartsConcatenate | packages/canopycms/src/entry-link-resolver.ts:232-236 | the parts concatenate to the text |
| CodeRegions.ProseHasNoFence | packages/canopycms/src/entry-link-resolver.ts:242-291 | no part outside code is empty or holds a fence, and no two of them are neighbours |
| CodeSpans.SpanIsCode | packages/canopycms/src/entry-link-resolver.ts:291-306 | one or two backticks, text that does not hold as many, and as many again are one code part, between the quiet prose before and the split of the rest |
| CodeSpans.PlainSpan | packages/canopycms/src/entry-link-resolver.ts:291-306 | so for any text without backticks or fences before and a span without backticks |
| CodeSpans.FenceIsCode | packages/canopycms/src/entry-link-resolver.ts:242-290 | a fence is one code part to the end of the first line that closes it, whatever its lines, and the rest is split on its own |
| CodeSpans.UnclosedFenceIsCode | packages/canopycms/src/entry-link-resolver.ts:253-290 | a fence no line closes is code to the end of the text |
| CodeSpans.LastFenceIsCode | packages/canopycms/src/entry-link-resolver.ts:253-290 | so is one with no line after it |
| CodeSpans.EveryCodePart | packages/canopycms/src/entry-link-resolver.ts:242-306 | and nothing else is code: each code part starts with a fence, or is a span that ends with as many backticks as it starts with, and no earlier |
| EntryLinks.FindOpeningBracket | packages/canopycms/src/entry-link-resolver.ts:149-157 | the backward loop finds the matching bracket of the specification and looks at no more than the stretch it is given |
| EntryLinks.StoppingEarlyFindsTheSame | packages/canopycms/src/entry-link-resolver.ts:129-131 | a search cut off where one failed finds what searching back to the cursor would |
| EntryLinks.UnwrapInlineLinks | packages/canopycms/src/entry-link-resolver.ts:126-146 | the pruned loop gives the text that unpruned searches give, and all its searches together look at no more characters than the text has |
| LinkGrammar.TargetThere | packages/canopycms/src/entry-link-resolver.ts:112-119 | the text of a target, with or without anchor and title, is matched where it stands, whole |
| LinkGrammar.TargetMatched | packages/canopycms/src/entry-link-resolver.ts:112-119 | and what is matched is such a text |
| LinkGrammar.LinkThere | packages/canopycms/src/entry-link-resolver.ts:26 | so for a token with as much of an anchor as there is |
| LinkGrammar.LinkMatched | packages/canopycms/src/entry-link-resolver.ts:26 | and nothing else is a token |
| Unwrapping.SearchFindsTheBracket | packages/canopycms/src/entry-link-resolver.ts:148-157 | the backward search finds the bracket that counting closes against opens says is the one |
| Unwrapping.InlineLinkLeavesItsText | packages/canopycms/src/entry-link-resolver.ts:126-146 | a link whose id is unwrapped leaves the text before it and the text in its brackets, an image's `!` goes with it, an escaped one stays, and the rest is unwrapped on its own |
| Unwrapping.PlainIsLeft | packages/canopycms/src/entry-link-resolver.ts:126-146 | text without a target is left as it is |
| Unwrapping.OnlyBracketsAndTargetsGo | packages/canopycms/src/entry-link-resolver.ts:126-146 | for any text the output is the text without the brackets, image marks and targets of the links unwrapped, in order; and every target to unwrap that has a bracket is one of them |
| EntryLinks.CodeIsVerbatim | packages/canopycms/src/entry-link-resolver.ts:67-98 | each code part stands in the output as in the text |
| Resolving.TokenIsReplaced | packages/canopycms/src/entry-link-resolver.ts:75-96 | a token becomes its entry's url and then its anchor, or what a dead or withheld link shows; the text before stays and the rest is replaced on its own |
| Resolving.ProseIsResolved | packages/canopycms/src/entry-link-resolver.ts:67-75 | where nothing is code, tokens are replaced in the text, or with `isLinkable` in what unwrapping leaves of it |
| Resolving.WithheldLinkLeavesItsText | packages/canopycms/src/entry-link-resolver.ts:43-51 | with `isLinkable` an inline link to a refused or missing target resolves to its bare text |
| EntryLinks.WithheldEntriesDoNotShow | packages/canopycms/src/entry-link-resolver.ts:43-51 | with `isLinkable` the output is the same whatever the index holds for refused ids |
| EntryLinks.ExtractEntryLinkIds | packages/canopycms/src/entry-link-resolver.ts:204-225 | the loops give the links of the parts outside code, in order |
| EntryLinks.ExtractedIdsAreTheOnesLookedUp | packages/canopycms/src/entry-link-resolver.ts:203-225 | extraction lists, in order, exactly the lookups that resolving without `isLinkable` returns with its text |
| EntryLinks.OnlyExtractedMatters | packages/canopycms/src/entry-link-resolver.ts:75-96 | two indexes that agree on the extracted ids resolve the text alike |
| EntryLinks.EveryExtractedMatters | packages/canopycms/src/entry-link-resolver.ts:75-96 | an entry coming or going changes the resolved text exactly when a link to it looks other than a dead one: one without an anchor unless the url is `#`, one with an anchor unless the url is empty; so for any url but these two, exactly when its id is extracted |
| ContentSchema.FlattenIsWellFormed | packages/canopycms/src/config/flatten.ts:33-134 | a flattened schema, with or without a content root, has one collection a path, each one segment below its parent |
| ContentSchema.FlattenHolds | packages/canopycms/src/config/flatten.ts:33-134 | a flattened schema holds each configured collection at its full path with its own types, order, id and parent, and no other |
| Sorting.SortSorts | packages/canopycms/src/content-listing.ts:573-595 | sorting by a total order gives a sorted permutation |
| Sorting.NotAfterIsAnOrder | packages/canopycms/src/content-listing.ts:582-594 | the comparison by order array, then by key, is a total order |
| ContentTree.ListEntries | packages/canopycms/src/content-listing.ts:445-567 | the loops collect what passes of the selected collections' visible entries, extract their data and sort them, by the custom sort or by path |
| ContentTree.VisibleCounts | packages/canopycms/src/content-listing.ts:387-395 | a collection shows each of its entries of a declared and available type that may be seen, as often as it is there |
| ContentTree.ListingShows | packages/canopycms/src/content-listing.ts:513-567 | whatever the options, each entry that passes the filter is listed as often as without options, with its own extracted data, and nothing else is |
| ContentTree.ListingIsInOrder | packages/canopycms/src/content-listing.ts:550-567 | a listing stands in the order of its paths, or of the custom sort |
| ContentTree.GroupByParent | packages/canopycms/src/content-tree.ts:159-168 | the map holds each collection's children in schema order |
| ContentTree.InterleaveIsInOrder | packages/canopycms/src/content-tree.ts:399-413 | children stand in the collection's order |
| ContentTree.ChildrenStandInOrder | packages/canopycms/src/content-tree.ts:399-413 | of two children the earlier is placed no later in the order array, and where neither is placed it is not after by name or slug |
| ContentTree.NodesBelow | packages/canopycms/src/content-tree.ts:257-338 | below a collection stand its visible entries and a node for each child collection with anything below it, and nothing else |
| ContentTree.TreeStandsInOrder | packages/canopycms/src/content-tree.ts:250-361 | the tree asked for at a collection is what is below it, in the order of its order array, then of names and slugs |
| ContentTree.BelowIsThroughAChild | packages/canopycms/src/content-tree.ts:314-317 | what is below a collection by path is at or below one of its children by parent |
| ContentTree.ChildrenShareNothing | packages/canopycms/src/content-tree.ts:314-317 | two children of a collection have nothing below them in common |
| ContentTree.NodeHoldsSum | packages/canopycms/src/content-tree.ts:257-338 | a node holds every entry at or below its collection, and a pruned one had none |
| ContentTree.TreeAndListingAgree | packages/canopycms/src/content-tree.ts:209-361 | tree and listing show the same entries, each as often, for any root that is a collection |
| ContentTree.AgreeIff | packages/canopycms/src/content-listing.ts:457-462 | over any flattened schema they agree exactly when the root asked for is not above the content root, or no collection has an entry to show |
| ContentTree.RootAboveTheContentRoot | packages/canopycms/src/content-tree.ts:250-255 | a concrete root for which the listing has an entry and the tree has none |
| ReactiveSecret.Secret.BeginRefresh | packages/canopycms-cdk/worker/credential-refresh.ts:145-166 | a read starts exactly when one is due, and is stamped and numbered as it starts |
| ReactiveSecret.DueReadStarts | packages/canopycms-cdk/worker/credential-refresh.ts:145-166 | over any run a refresh adds a read exactly when none has started or the last did at least the interval ago |
| ReactiveSecret.Secret.FinishRefresh | packages/canopycms-cdk/worker/credential-refresh.ts:167-179 | a result is dropped or adopted as the newest, and reported only if the value changed |
| ReactiveSecret.LatestReadIsHeld | packages/canopycms-cdk/worker/credential-refresh.ts:134-141 | under any overlap the held value is that of the latest-started read that has succeeded, else the initial one |
| ReactiveSecret.RotationIsNotUndone | packages/canopycms-cdk/worker/credential-refresh.ts:134-169 | a slow older read never puts its value back |
| ReactiveSecret.ReadsAreBounded | packages/canopycms-cdk/worker/credential-refresh.ts:149-164 | with a clock that does not step back, k reads span at least k - 1 intervals |
| BranchMetadata.SavesAreSequential | packages/canopycms/src/branch-metadata.ts:171-215 | the file is always the landed saves applied one after another, and each reports the file right after its place |
| BranchMetadata.CreationFactsNeverChange | packages/canopycms/src/branch-metadata.ts:299-337 | `createdBy` and `createdAt` never change and `baseBranch` never moves once set |
| BranchMetadata.EditorsAreKept | packages/canopycms/src/branch-metadata.ts:217-255 | uncommitted editors stay among the editors and are lost only to a commit naming them |
| BranchMetadata.RecordingRecords | packages/canopycms/src/branch-metadata.ts:222-237 | recording puts the id in both lists, keeps `updatedAt` and creates no file |
| BranchMetadata.SaveAlone | packages/canopycms/src/branch-metadata.ts:171-215 | a save nobody overtakes writes its own application to the file it read, and ends |
| BranchMetadata.WriteAnswers | packages/canopycms/src/branch-metadata.ts:171-215 | a write with nothing to write is skipped, one whose file has moved on starts again, and any other leaves its own application as the file and reports it |
| BranchMetadata.LookAnswers | packages/canopycms/src/branch-metadata.ts:222-224 | the look before a recording ends it exactly when there is no file or the editor is in both lists |
| BranchMetadata.AnswersHaveReasons | packages/canopycms/src/branch-metadata.ts:171-215 | over any run a conflict is reported only by giving up, and a skipped call had found a file its operation does nothing to |
| BranchMetadata.SaveWrites | packages/canopycms/src/branch-metadata.ts:171-215 | a save to an existing file: creation facts from the file, the given fields over the old ones, the next version, the time |
| BranchMetadata.SaveCreates | packages/canopycms/src/branch-metadata.ts:299-337 | a save that creates: the given fields over the defaults, version one |
| BranchMetadata.RecordingWrites | packages/canopycms/src/branch-metadata.ts:222-237 | recording an editor writes the two lists with the id at their ends and nothing else |
| BranchMetadata.CommittingWrites | packages/canopycms/src/branch-metadata.ts:239-255 | marking editors committed writes the uncommitted ones without them, in order, and nothing else |
| DevWatcher.Watcher.Check | packages/canopycms/src/dev-content-watcher.ts:204-211 | an event starts a check or marks the running one |
| DevWatcher.Watcher.EndCheck | packages/canopycms/src/dev-content-watcher.ts:236-242 | a check that ends starts another exactly when it was marked |
| DevWatcher.EveryEventIsChecked | packages/canopycms/src/dev-content-watcher.ts:204-242 | once idle, every file event has been followed by a check started at it or later |
| DevWatcher.OneCheckAtATime | packages/canopycms/src/dev-content-watcher.ts:206-211 | at most one check is under way |
| DevWatcher.NoIdleChecks | packages/canopycms/src/dev-content-watcher.ts:204-242 | no check starts that no event asked for |
| DevWatcher.WatcherState.ReportOnce | packages/canopycms/src/dev-content-watcher.ts:193-202 | no two messages running are the same, restarts included |
| DevWatcher.WatcherState.Conclude | packages/canopycms/src/dev-content-watcher.ts:220-235 | an announced divergence that is gone is always retracted out loud |
| DevWatcher.WatcherState.WatchError | packages/canopycms/src/dev-content-watcher.ts:256-260 | a watcher error is reported unless it was the last message, and leaves the divergence standing |
| ProcessExits.TerminationOwnsTheExit | packages/canopycms-cdk/worker/run.ts:663-724 | once terminating and with no signal, the process exits at most once and only as drained |
| ProcessExits.ExitsHaveCauses | packages/canopycms-cdk/worker/run.ts:663-724 | every exit code of a worker has its own cause in the run |
| ProcessExits.NoticedWorkerExitsDrained | packages/canopycms-cdk/worker/run.ts:663-724 | over a whole life from boot without a signal, a notice before any exit makes the drained exit the only one |
| ProcessExits.OneExit | packages/canopycms-cdk/worker/gateway-run.ts:283-402 | the gateway exits at most once, with 0 exactly when a signal claimed the stop first |
| ProcessExits.GatewayExitsHaveCauses | packages/canopycms-cdk/worker/gateway-run.ts:283-402 | every exit code of the gateway has its own cause in the run |

## Left out

- Adoption of a dev workspace in place (`adoptInPlace`): the one documented exception to publishing by rename; the early answers are those of prod.
- Sharing of one in-process provision by concurrent requests: joined requests take the outcome of the one that runs.
- Attribute-cache staleness, clocks that disagree between hosts, and two hosts taking over one lock: the code says they are outside its guarantees.
- Random tags of three bytes meeting in the same second: stamped names are taken to be fresh, the tagless purge name included.
- A judgement's separate reads (classify, stat, three mtimes) are one step: the candidate's name is private to the quarantine that made it.
- The settings workspace's own provisioning; only its leftovers' names and ages are modelled.
- The remote-URL parser and path comparison behind "own" and "other" remotes: `Remote` is taken as read.
- Year, month and day beyond what a stamp can say: `Legal` lets day 31 of a short month roll over, as V8 does.
- The registry's suspicious-miss refresh in `find` and its throttle.
- A `list` that joins a rebuild already in flight is only as new as that rebuild's own start.
- The schema cache's dev-mode mtime walk is a choice that can only refuse a snapshot; resolves for a build bypass the cache and are not modelled.
- Schema resolution itself: a resolved schema stands for the files and the registry it was resolved from.
- ENOENT in the middle of an index scan, which the code treats as an empty directory.
- The insertion order of JavaScript Maps and Sets: queries say what is listed and that it is listed once, not in which order.
- Strings are compared and lower-cased by Unicode character and ASCII letter; JavaScript compares UTF-16 units and folds more letters.
- Title and anchor patterns are matched by deterministic functions equal to the regular expressions at a position; the regex engine is not modelled.
- URL computation (`computeEntryUrl`) is a parameter of link resolution, as a caller's own resolver is.
- ContentTree.ListEntries: reference resolution, the url and the other fields an item copies, and the build-time refusal of malformed filenames are not modelled.
- Extract, filter, depth cap, custom sort and reference resolution of the tree.
- Path normalization of collection paths: schemas are given normalized.
- BranchMetadata: deletes, files without a version, unset fields among the others, and the check before the rename being apart from it; the write is one compare-and-set.
- The texts of messages: the watcher's four kinds of message are taken to differ from each other, as their wording does.
- ProcessExits: logging, the failure record's contents and the lifecycle call; a drain that rejects in the worker.
