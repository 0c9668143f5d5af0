# Treeclear: a model of the hard parts, with proofs

Treeclear finds linked Git worktrees that are no longer needed, collects evidence about whether anything still uses
them, records the result in a plan, and snapshots a worktree's untracked and administrative files before anything is
removed. This project models the code in which a small mistake would be costly, and proves what that code is for:

* **Consistent reads.** `FileSystem`, `ReadAdministrative` and `ReadUntracked` model a file system that other programs
  change between any two operations of the reader. A read that succeeds returned a tree that existed, whole, at one
  moment; `ReadModes` says exactly when its permissions are those of that moment too. `UntrackedSelection` builds the
  trie of requested paths from heap nodes; `CaptureSourceState` compares what was read with that trie;
  `UntrackedValidation` and `Administrative` decide conditions on all pairs of paths.
* **All-or-nothing publication.** `Storage` and `DirectoryPublication` model the staging, sealing, read-back, exclusive
  rename and cleanup of a private directory, with interference before every operation. `IntegrityKey` models any number
  of calls that race to create one shared key.
* **Git's listings.** `StatusPorcelain` and `WorktreePorcelain` relate the parsers to printers of the two formats
  (git-status(1), "Porcelain Format Version 2"; git-worktree(1), "Porcelain Format").
* **Evidence.** `ProcessSources` lists processes, `ProcessCollector` routes their records to worktrees, `Correlate`
  groups them with agent reports, `Evaluate` decides, and `EvidencePipeline` proves of the composition that nothing
  unknown is lost on the way.
* **Plans.** `Preview`, `Fingerprint`, `PreviewPlan`, `ProcessProblems` and `PlanBuild` build a plan from whatever the
  collectors return, and prove that the independent validator accepts it.
* **Manifests.** `ManifestJson` models the bounded check of a JSON token stream, `ManifestCodec` the canonical document
  of a snapshot manifest (RFC 8259 sections 2 to 5; RFC 4648 section 4).

`Text`, `Sorting`, `Sequences`, `Paths` and `Domain` hold what the others share. Methods follow the source's functions;
where a source function would make one proof too large it is cut into methods that follow each other.

## What is assumed

* **File system.** Every object has two times. The content time moves with every change of bytes or of directory
  names, the change time with every change at all and whenever a name of the object is added or removed; neither ever
  returns to an earlier value. Object numbers that this program creates were never used before. A listing that is read
  in one operation shows one moment; a directory stream is only trusted while the directory's content time is the one
  the stream started with. Nothing else is assumed about other programs. That times never return leaves out programs
  that set a time back (`utimes`, as internal/snapshot/read_administrative_change_test.go:322 and 344 do when they
  prepare a replacement): a content that such a program replaces and restores, time included, can go unnoticed, as
  permissions can without its help.
* **Character tables.** Case folding is any idempotent map of characters under which only `/` folds to `/`; path keys
  are any map of characters with the same property for `/`. Characters compare by code point, as their UTF-8 bytes do.
* **Libraries.** Hashes and encodings are arbitrary functions, injective where a statement says so. JSON text is
  arbitrary: it is only assumed that what is written for a valid manifest has the tokens of its document and is read
  back as the same manifest.
* **The rest of the system.** Answers of the operating system, of Git and of the collectors are arbitrary, and may
  differ from one question to the next. Cancellation and failures of operations may happen at any step.

## Where the code and its promise differ

Both readers compare kind, size, permissions and content time, but a change of permissions does not move the content
time. Permissions that go away and come back between two looks go unnoticed (`ReadAdministrative.ModeCanBeMissed` gives
such a run). Names, kinds and bytes are nevertheless those of one moment, and permissions are those the object had at
some moment before and at some moment after it.

This is the only way, and the condition is exact. Say that an object's permissions *return* around t when they and the
content time are the same at some s before t and some u after t, but the permissions are others at t. A read whose tree
had no object with returning permissions within its own window reports the permissions of its moment
(`ReadAdministrative.ReadAdministrative`, `ReadUntracked.ReadUntracked`). Conversely, over any stretch in which a tree
stood still, whatever the permissions did, everything that can be read is right about permissions *if and only if* none
returned (`ReadModes.ModesRightExactlyWhenNothingReturns`, `ReadModes.RequestedModesRightExactlyWhenNoneReturns`); on
every timeline, returning permissions of an empty directory can be missed (`ReadModes.EmptyDirectoryMissed`).

`cleanup` removes only names that the run created itself. For the files this goes down to the object: their identity is
taken from the handle that created them, and each is seen under its name in the turn that removes it; whoever exchanges
it after that last look can still have another object's name removed. The staging directory is pinned by what its name
leads to at the first look after `mkdirat`. That is the created directory unless somebody took the name away from it in
between (`DirectoryPublication.PinnedUnlessExchanged`); another private directory of the same user that is put under the
name in between passes every check and is pinned instead (`DirectoryPublication.SwapIsPinned`).

## Model

| member | source | states |
|---|---|---|
| ReadAdministrative.ReadAdministrative | internal/snapshot/read_administrative.go:48-136 | under arbitrary interference, a successful read returns in path order a well-shaped list that is exactly the tree (every name, kind and byte, nothing missing, nothing extra) that stood at one moment before the re-validation; the path named that root before and after; permissions are bracketed by that moment, and belong to it unless permissions somewhere in that tree went away and came back within the window of the read |
| ReadAdministrative.ConfirmedIsTree | internal/snapshot/read_administrative.go:67-136 | the seqlock argument: observations that were all confirmed after a moment are the tree of that moment, permissions included if none of them returned in the meantime |
| ReadAdministrative.NothingMissing | internal/snapshot/read_administrative.go:138-187 | every object of the tree at that moment was observed under its path |
| ReadAdministrative.NothingExtra | internal/snapshot/read_administrative.go:138-187 | every observation is an object of the tree at that moment |
| ReadAdministrative.ConfirmedBracketsModes | internal/snapshot/read_administrative.go:419-424 | each entry's permissions were its object's at some moment before and at some moment after |
| ReadAdministrative.ModeCanBeMissed | internal/snapshot/read_administrative.go:419-424 | a lawful run in which a permission flickers unnoticed, so that the returned permissions are not those of the moment |
| ReadModes.ModesRightExactlyWhenNothingReturns | internal/snapshot/read_administrative.go:419-424 | over a stretch in which a tree stood still, every log that can be confirmed is the tree with the permissions of its moment if and only if nowhere in the tree permissions go away and come back |
| ReadModes.ReturnIsMissed | internal/snapshot/read_administrative.go:121-130 | for each such return there is a log that passes the re-validation and is wrong about exactly that object |
| ReadModes.EmptyDirectoryMissed | internal/snapshot/read_administrative.go:419-424 | for an empty directory, on every lawful timeline, nothing else is needed |
| ReadModes.ConfirmedStoodStill | internal/snapshot/read_administrative.go:121-130 | whenever something can be confirmed at all, the tree can be noted at one instant, which is what the exact condition starts from |
| ReadModes.RequestedModesRightExactlyWhenNoneReturns | internal/snapshot/read_untracked_observation.go:95-100 | the same exact condition for the requested files, links and directories; the root is not among them |
| ReadModes.SettledStoodStill | internal/snapshot/read_untracked.go:114-129 | and its starting point is there whenever a trace can be confirmed |
| ReadAdministrative.AdministrativeReader.DirectoryNames | internal/snapshot/read_administrative.go:189-254 | on success exactly the names the directory had when it was observed, within the entry limit |
| ReadAdministrative.AdministrativeReader.FileData | internal/snapshot/read_administrative.go:256-318 | on success exactly the bytes the file had when it was observed |
| ReadAdministrative.AdministrativeReader.WalkDirectory | internal/snapshot/read_administrative.go:138-187 | terminates, and leaves every directory from the given one on completely observed |
| ReadAdministrative.AdministrativeReader.Revalidate | internal/snapshot/read_administrative.go:121-130 | on success every observation was seen again with the same metadata |
| Administrative.ValidateAdministrativeEntries | internal/snapshot/administrative.go:13-64 | accepts exactly the well-shaped trees: valid entries, distinct folded paths, bounded bytes, every parent a directory, the required files present |
| Administrative.WellShapedPermute | internal/snapshot/administrative.go:13-64 | the verdict does not depend on the order of the entries |
| DirectoryPublication.PublishPrivateDirectory | internal/fssecure/directory_darwin.go:37-115 | the returned path is nonempty exactly on success; on success one instant after the exclusive rename showed exactly the requested files with exactly their bytes, in a directory seen private and under the requested path before and after; in every case all that was added, written, renamed and removed is accounted for: nothing, or a staging directory (by the kind of its name) in the parent that the requested path led to, and then files with the first of the requested names one by one, one more at most when its state is uncertain, writes to nothing else, and one rename of the pinned directory exactly when the run published, which then removed nothing; a run that did not publish removes only names it created itself, each file after its own turn saw the very object it created under that name, and only when its staging directory was pinned and its state certain; with nobody else at work, no step of the cleanup refused and all files sealed, the parent lists what it listed before |
| DirectoryPublication.DirectoryPublisher.Publish | internal/fssecure/directory_darwin.go:42-115 | what holds before the last look: everything added, written and renamed is accounted for, a published run renamed its pinned directory with all requested children and removed nothing, one that did not publish renamed nothing and cleaned up by ownership; on success every file was read back after the rename |
| DirectoryPublication.DirectoryPublisher.CheckPublished | internal/fssecure/directory_darwin.go:360-378 | on success the listing was exactly the children's names at one moment, everything being seen before and after it through fresh handles, and the directory private |
| DirectoryPublication.DirectoryPublisher.CheckListing | internal/fssecure/directory_darwin.go:280-309 | at one moment the names are exactly the children's, and every child is seen both before and after |
| DirectoryPublication.DirectoryPublisher.CheckStorage | internal/fssecure/directory_darwin.go:248-278 | on success parent and staging directory were seen in place and private, and every child in place, private, and unchanged if sealed; it succeeds whenever nobody interferes, no step is refused and everything is as recorded |
| DirectoryPublication.DirectoryPublisher.ReadChild | internal/fssecure/directory_darwin.go:201-227 | on success the sealed child held exactly the expected bytes, seen before and after the read |
| DirectoryPublication.DirectoryPublisher.VerifyFiles | internal/fssecure/directory_darwin.go:229-239 | on success every child held exactly its requested bytes |
| DirectoryPublication.DirectoryPublisher.CreateStaging | internal/fssecure/directory_darwin.go:117-147 | keeps what the fields mean: nothing was added, or the one directory under the staging name, and a pinned directory is what the first look after that creation found; undisturbed, it is the one new thing in an intact parent |
| DirectoryPublication.PinnedUnlessExchanged | internal/fssecure/directory_darwin.go:131-143 | the pinned directory is the created one, unless at some moment between its creation and the first look its name was taken away from it |
| DirectoryPublication.SwapIsPinned | internal/fssecure/directory_darwin.go:131-143 | the limit of that look: a lawful change after which another private directory of the user passes every check and is pinned |
| DirectoryPublication.DirectoryPublisher.WriteChild | internal/fssecure/directory_darwin.go:149-199 | on success this run created the new child under its name with the recorded object, sealed it, and read the input's contents back from it; in any case what the fields mean is kept |
| DirectoryPublication.DirectoryPublisher.Cleanup | internal/fssecure/directory_darwin.go:318-358 | the listing was exactly the sealed children before anything was removed; they go from the last to the first, each after a check of its own, then the empty directory; nothing is removed when pinning failed or the state is uncertain; undisturbed, it fails only where a step was refused or a child is not sealed, and restores the parent's listing |
| DirectoryPublication.DirectoryPublisher.RemoveLast | internal/fssecure/directory_darwin.go:341-350 | one turn of the removing loop: the removed object had the recorded identity at a check after the turn began |
| DirectoryPublication.ListingIsInstant | internal/fssecure/directory_darwin.go:280-309 | read-backs before a listing and sightings after it meet at the listing: one instant for everything |
| DirectoryPublication.CountedListing | internal/fssecure/directory_darwin.go:292-307 | as many distinct known names as children means exactly the children |
| DirectoryPublication.ChildHeld | internal/fssecure/directory_operations_darwin.go:70-76 | equal snapshots at two moments: the child stood still, under its name, in between |
| DirectoryPublication.DirectoryPublisher.VerifyHandle | internal/fssecure/directory_operations_darwin.go:56-68 | on success the handle is on the recorded object, which belongs to the user and is private |
| DirectoryPublication.DirectoryPublisher.ReadChunk | internal/fssecure/directory_operations_darwin.go:94-109 | a read between two checks returns bytes of the sealed file |
| IntegrityKey.CallsAgree | internal/plan/integrity.go:110-145 | in every run of any number of calls, all calls that return, whenever they do, return the same 32 bytes |
| IntegrityKey.OneWinner | internal/fssecure/private.go:141-170 | at most one link ever succeeds, exactly one if the key did not exist before and does now |
| IntegrityKey.NeverPartial | internal/fssecure/private.go:32-104 | the final name appears with all 32 bytes, and a reader only ever holds a prefix of them |
| IntegrityKey.NameIsForever | internal/fssecure/private.go:141-170 | once the final name exists it stays the same file with the same contents |
| IntegrityKey.WrongSizeNeverReturned | internal/plan/integrity.go:110-145 | a key file of another size makes every call fail |
| IntegrityKey.LoserReadsWinner | internal/plan/integrity.go:132-144 | a call that lost the race returns the winner's key in four steps of its own, whatever the others do |
| IntegrityKey.RunKeepsInv | internal/plan/integrity.go:110-145 | what every step of every call keeps |
| UntrackedValidation.ValidateUntrackedEntries | internal/snapshot/untracked_validation.go:19-64 | accepts exactly when the counts fit, every entry is valid, and the condition on all pairs holds: distinct folded paths, folded ancestors are literally spelled directories, no two spellings of one directory |
| UntrackedValidation.SpellingConflict | internal/snapshot/untracked_validation.go:119-134 | finds exactly the pairs that share a folded directory spelled differently |
| UntrackedValidation.ChecksSuffice | internal/snapshot/untracked_validation.go:45-62 | first descendants and neighbours of the sorted list decide every pair |
| UntrackedValidation.ChecksNecessary | internal/snapshot/untracked_validation.go:45-62 | and they reject nothing else |
| UntrackedValidation.NeighboursDecide | internal/snapshot/untracked_validation.go:58-62 | agreeing neighbours make every pair agree at every component |
| UntrackedValidation.Search | internal/snapshot/untracked_validation.go:48-50 | the binary search finds the first identity that is not smaller |
| UntrackedSelection.SelectUntrackedReadPaths | internal/snapshot/read_untracked_selection.go:17-69 | on success the heap nodes form a trie whose nodes are exactly the component prefixes of the requested paths, leaves exactly the paths, children strictly sorted, at most 4096 nodes besides the root; a failure names a list that is invalid, or one that needs more nodes |
| UntrackedSelection.TrieMirrorsPaths | internal/snapshot/read_untracked_selection.go:31-60 | a trie over the wanted prefixes has the requested paths as its leaves and their proper prefixes inside, each once |
| UntrackedSelection.NeverBoth | internal/snapshot/read_untracked_selection.go:21-30 | no requested path is the directory of another |
| UntrackedSelection.AddPath | internal/snapshot/read_untracked_selection.go:38-59 | one path adds exactly its prefixes, or there are too many |
| UntrackedSelection.Finish | internal/snapshot/read_untracked_selection.go:61-64 | sorting a node's children in place keeps the trie |
| UntrackedSelection.DirectoryIsPrefix | internal/snapshot/read_untracked_selection.go:38-59 | being a directory of a path is being a proper prefix of its components |
| CaptureSourceState.ValidateSourceUntracked | internal/snapshot/capture_source_state.go:131-160 | accepts exactly valid entries within the budget whose paths are the trie's and which are directories exactly at its interior nodes; the budget is then charged exactly |
| CaptureSourceState.CompareShape | internal/snapshot/capture_source_state.go:145-158 | the worklist terminates and decides the agreement of entries and trie |
| CaptureSourceState.ShapeIsRequest | internal/snapshot/capture_source_state.go:145-158 | entries that agree with the trie are what was requested |
| CaptureSourceState.RequestIsShape | internal/snapshot/capture_source_state.go:145-158 | what was requested agrees with the trie |
| CaptureSourceState.SourceByteBudget.Take | internal/snapshot/capture_source_state.go:103-109 | succeeds exactly when enough remains, and takes exactly that |
| ReadUntracked.ReadUntracked | internal/snapshot/read_untracked.go:38-136 | under arbitrary interference, a successful read returns in path order, and within the byte budget, exactly the entries for the requested paths and their directories, all as they stood at one moment before the re-validation; permissions too, unless those of a requested object went away and came back within the window of the read |
| ReadUntracked.CollectedMatches | internal/snapshot/read_untracked.go:138-203 | every list that `collect` produces for a trie has the shape that `validateSourceUntracked` asks for |
| ReadUntracked.LinkHeld | internal/snapshot/read_untracked.go:121-129 | a link text read through a confirmed name is the text of the observed link |
| ReadUntracked.KeysLead | internal/snapshot/read_untracked.go:138-203 | at that moment every observed path leads to the observed object |
| ReadUntracked.SettledResult | internal/snapshot/read_untracked.go:49-136 | the seqlock argument for the requested part of a tree: what is delivered from a settled trace are, in path order, the requested entries of its one moment |
| ReadUntracked.UntrackedReader.Collect | internal/snapshot/read_untracked.go:138-203 | terminates, and covers everything below its node of the trie |
| StatusPorcelain.ParseStatusPorcelainZPaths | internal/git/status_porcelain.go:19-100 | parsed exactly when the bytes print a list of well-formed records; the counts are the records of each kind, the paths exactly the untracked ones; collecting fails further only beyond 4096 |
| StatusPorcelain.PrintInjective | internal/git/status_porcelain.go:19-100 | different lists of records print differently, so parsing and printing are inverse |
| StatusPorcelain.StartsOnce | internal/git/status_porcelain.go:29-34 | no record's text is the start of another's |
| StatusPorcelain.SourcesAreNotRecords | internal/git/status_porcelain.go:75-84 | the source path of a rename has a NUL of its own and is never counted as a record |
| StatusPorcelain.RenameScores | internal/git/status_porcelain.go:121-130 | exactly R or C, as the code has it, and a plain decimal from 0 to 100 |
| StatusPorcelain.ParsedPrints | internal/git/status_porcelain.go:45-84 | printing a parsed record gives its text back |
| StatusPorcelain.PrintedParses | internal/git/status_porcelain.go:45-84 | parsing a printed record gives the record back |
| WorktreePorcelain.ParseWorktreePorcelainZ | internal/git/worktree_porcelain.go:23-77 | accepts exactly the acceptable inputs and returns what their records mean |
| WorktreePorcelain.RoundTrip | internal/git/worktree_porcelain.go:23-77 | for every nonempty well-formed list, with spaces and newlines in paths and reasons, parsing the printed form gives the list back |
| WorktreePorcelain.AcceptedIsUnambiguous | internal/git/worktree_porcelain.go:63-74 | accepted records have distinct nonempty paths, and exactly one of branch and detached unless bare |
| WorktreePorcelain.AcceptedIsItsRecords | internal/git/worktree_porcelain.go:24-72 | an accepted input is its records put together again, and each record and its worktree say the same: every field shows in the worktree with its value (but for the reason of a prunable one), and whatever shows in the worktree is a field |
| WorktreePorcelain.PrintedRecordMeans | internal/git/worktree_porcelain.go:30-72 | the fields printed for one worktree mean that worktree |
| WorktreePorcelain.ReadRecord | internal/git/worktree_porcelain.go:30-62 | the field loop accepts exactly known, unrepeated, valid fields |
| ProcessSources.ListDarwin | internal/process/native_darwin.go:44-120 | success is the sample of one of three attempts, between two valid tables that show the same processes; every earlier attempt saw them change |
| ProcessSources.StableSays | internal/process/native_darwin.go:67-117 | a successful sample has one record per process of both tables (kernel and zombies excepted), with the table's creation time, own processes marked exactly by owner |
| ProcessSources.OneWayIsEnough | internal/process/native_darwin.go:171-186 | with equal lengths and no duplicates, a lookup in one direction decides whether the same processes run |
| ProcessSources.DuplicatesWouldHide | internal/process/native_darwin.go:171-186 | without the check for duplicates it would not |
| ProcessSources.SameDarwinProcesses | internal/process/native_darwin.go:171-186 | decides whether two valid tables show the same processes |
| ProcessSources.ValidateDarwinSnapshot | internal/process/native_darwin.go:151-169 | accepts exactly whole tables: bounded, no number twice, every record valid, the kernel proven and present |
| ProcessSources.TakeSample | internal/process/native_darwin.go:78-104 | one dated record per live process of the table, in order |
| ProcessSources.ListProcesses | internal/process/gopsutil.go:35-107 | every enumerated or listed process has a record, once; it succeeds exactly when nothing was missing or cut short, and then every record was read from its own process |
| ProcessSources.InspectProcess | internal/process/gopsutil.go:122-163 | a record counts as inspected exactly when every field was read and is well formed; an error text appears exactly when not |
| ProcessCollector.Collect | internal/process/collector.go:26-160 | every record of the listing is where its containment says; the collection is complete exactly when the whole listing was read, unbroken and without impossible numbers |
| ProcessCollector.RouteRecord | internal/process/collector.go:100-154 | one record in its places keeps everything accounted for |
| ProcessCollector.FindBadPids | internal/process/collector.go:80-94 | finds exactly the impossible and repeated numbers |
| ProcessCollector.ScanRoots | internal/process/collector.go:111-128 | the worktrees the process is inside of, and whether any containment could not be decided |
| ProcessCollector.ActiveExactlyWhenSound | internal/process/collector.go:162-208 | a process is active exactly when nothing is wrong with its record, and unknown otherwise |
| Correlate.Group | internal/correlate/evidence.go:12-66 | each worktree gets its own records, everything global, its agents, and the uninspectable processes they refer to; an incomplete enumeration is always represented |
| Correlate.GlobalRecords | internal/correlate/evidence.go:13-40 | every uninspectable process that is on no list becomes a global unknown |
| Correlate.BindingSorts | internal/correlate/evidence.go:68-89 | in terms of what each of the agent's three paths says (nothing, nothing clear, here, away): the binding leaves out exactly the agents of whose worktree and directory one is away and none here or unclear, or of which only the repository is given and is not this one, or that give nothing and do not apply; it is certain exactly when every given path says here and one of them is not just the repository |
| Correlate.TwoPlacesProtect | internal/correlate/evidence.go:42-93 | an applicable agent that matches two worktrees, of which neither contains the other, protects one of them |
| Correlate.EveryAgentIsPlaced | internal/correlate/evidence.go:42-89 | whatever the composition leaves unprotected, every applicable agent is for certain elsewhere, or for certain here and known to be at rest |
| Correlate.UncertainAgentProtects | internal/correlate/evidence.go:46-62 | an applicable agent with an uncertain binding protects the worktree |
| Evaluate.Evaluate | internal/policy/evaluate.go:9-59 | the class is the gravest that any single concern calls for, each stated by itself; the reason is the foremost concern that applies, of which there is only one; safe is exactly `Harmless`, which looks at all records and all pairs of agents |
| Evaluate.HasUnknownEvidence | internal/policy/evaluate.go:97-129 | the last-seen map finds a conflict exactly when two reports of one identity differ |
| Evaluate.Monotone | internal/policy/evaluate.go:9-152 | more evidence never makes a decision less cautious |
| Evaluate.OrderFree | internal/policy/evaluate.go:9-152 | a decision depends only on which evidence there is |
| Evaluate.PermutationFree | internal/policy/evaluate.go:9-152 | permuting evidence changes neither classification nor reason |
| Evaluate.SafeExactlyWhen | internal/policy/evaluate.go:21-59 | safe means exactly: nothing known against it, everything known that has to be |
| EvidencePipeline.UnknownNeverDisappears | internal/process/collector.go:26-160 | if the composition leaves a worktree unprotected, the enumeration was complete and unambiguous, no active process is inside, and every uninspectable process was placed, without error, elsewhere only |
| EvidencePipeline.Classify | internal/policy/evaluate.go:9-59 | collect, group and decide: every decision of the composition is justified in that sense, for the processes and for the agents |
| EvidencePipeline.MustBeHarmless | internal/correlate/evidence.go:12-66 | each single record left an unprotected worktree alone |
| Preview.ValidateSelectedPaths | internal/plan/preview.go:42-65 | accepts exactly canonical, distinct paths none of which is an ancestor of another, the root included |
| Preview.WalkIsPairwise | internal/plan/preview.go:54-63 | walking up from a path finds a selected ancestor exactly when there is one |
| Preview.ValidateBuildIdentities | internal/plan/build.go:260-281 | accepts exactly worktrees with canonical, distinct paths and distinct administrative directories |
| Preview.MatchSelectedPaths | internal/plan/preview.go:67-85 | succeeds exactly when every path is that of a worktree that is not primary, and gives their registered paths in order |
| Preview.ValidatePreviewRequest | internal/plan/preview.go:29-40 | accepts exactly the requests that a plan can record |
| Fingerprint.CandidateFingerprint | internal/plan/fingerprint.go:102-163 | the digest of the encoding of the sorted preconditions; nothing exactly when an agent has an unknown revalidation mode |
| Fingerprint.SortPreconditions | internal/plan/fingerprint.go:191-209 | sorting encodings beside the values sorts the values by their encodings |
| Fingerprint.PayloadIsCanonical | internal/plan/fingerprint.go:102-163 | two payloads, and so their encodings, are equal exactly when the multisets of preconditions are |
| Fingerprint.AgentIsCanonical | internal/plan/fingerprint.go:165-189 | an agent's precondition forgets the order of its process references and nothing else |
| Fingerprint.OrderForgotten | internal/plan/fingerprint.go:102-189 | permuting processes, agents, adapters, collection errors or reasons, and the process references of any agent, leaves payload and fingerprint unchanged |
| Fingerprint.PlanningOnlyUnseen | internal/plan/fingerprint.go:128-141 | agents that are only for planning leave no trace |
| PreviewPlan.ValidatePreviewPlan | internal/plan/preview.go:97-168 | accepts exactly the plans whose record, identities, selections, classifications, fingerprints and summary fit their own contents |
| PlanBuild.Build | internal/plan/build.go:49-206 | a plan is returned exactly for a valid request, a known time, worktrees that can be told apart and selections among them, when neither a cancelled context nor a library stops it at the start, around the inventory, after the processes, at some candidate or at the end; whatever the collectors return, a returned plan is accepted by the validator, holds each worktree once in order of paths and the settings of its request, matches each requested path to exactly one selected candidate that is not primary, decides every candidate from its own evidence, warns and protects a candidate exactly when a problem concerns it, names every problem and nothing else, and is complete exactly when there was none |
| PlanBuild.UnprotectedIsKnown | internal/plan/build.go:109-188 | what a plan leaves unprotected had everything known about its processes, in time, and nothing wrong with its own record: known Git state and times, canonical paths, no confusion with the primary worktree, all hashes, no negative count |
| PlanBuild.WorktreeFaults | internal/plan/build.go:291-323 | silent exactly about such records |
| PlanBuild.SelectedExactly | internal/plan/build.go:127-138 | a candidate of a returned plan is marked as selected exactly when a requested path is its own |
| PlanBuild.SkippedExactly | internal/plan/preview.go:87-95 | it is skipped exactly when it was requested, dirty worktrees are to be skipped, and it is known to be dirty; it is then protected, so skipping never hides a removable worktree |
| PlanBuild.MadeIsFromEvidence | internal/plan/build.go:157-174 | a candidate carries a warning exactly when something went wrong that concerns its worktree, and is then protected |
| PlanBuild.BuildIsValid | internal/plan/build.go:49-206 | the plan that is put together satisfies the validator's conditions |
| PlanBuild.GatherWarnings | internal/plan/build.go:92-153 | every problem becomes a warning of the worktrees it is about, or of all; nobody else is warned |
| PlanBuild.ValidateRequest | internal/plan/build.go:208-234 | accepts exactly the valid requests |
| PlanBuild.MakeCandidates | internal/plan/build.go:157-188 | one candidate per worktree, decided from its own evidence and warnings, and counted once, unless it is stopped at one of them |
| PlanBuild.RegisteredSelectable | internal/plan/preview.go:67-85 | the registered forms of selectable paths are selectable again |
| ProcessProblems.BuildProcessProblems | internal/plan/build.go:330-410 | every doubtful, impossible, conflicting, unbound, global or uninspectable record and every returned error is reported to the worktrees it is about; there are no problems exactly when nothing is wrong |
| ProcessProblems.UnconcernedIsKnown | internal/plan/build.go:330-410 | a worktree that no problem concerns had everything known: uninspectable processes are listed elsewhere only, always with the same record |
| ProcessProblems.RecordBinds | internal/plan/build.go:351-374 | the map of bindings tells whether the records of a process are unambiguous, and where they are listed |
| ProcessProblems.ErrorPaths | internal/plan/build.go:412-428 | an error's scope is believed only when all its paths are known and none is repeated |
| ManifestJson.CheckManifestJson | internal/snapshot/codec.go:63-78 | accepts a token stream exactly when it is one object with at most 32768 values, nested at most 8 deep, at most 32 keys or 4096 items per collection, and at most 16 MiB of decoded data |
| ManifestJson.CheckJsonValue | internal/snapshot/codec.go:80-135 | accepts exactly a value within what is left of the budget, consumes its tokens, and charges it exactly |
| ManifestJson.CheckAdministrativeDataSize | internal/snapshot/codec.go:137-156 | accepts exactly padded base64 that still fits, or null, and charges its decoded size |
| ManifestJson.PrintedParses | internal/snapshot/codec.go:80-135 | the grammar reads a printed value back and leaves the rest |
| ManifestJson.ParsedPrints | internal/snapshot/codec.go:80-135 | what the grammar reads prints as the tokens that were read |
| ManifestJson.TokensInjective | internal/snapshot/codec.go:80-135 | a token list has at most one reading |
| ManifestCodec.DecodeManifest | internal/snapshot/codec.go:39-61 | accepts exactly the documents that `EncodeManifest` produces, and returns the manifest with entries sorted and time in UTC |
| ManifestCodec.EncodeManifest | internal/snapshot/codec.go:22-37 | the document of the canonical form of a valid manifest, unless it is too large |
| ManifestCodec.DocumentWithinLimits | internal/snapshot/codec.go:63-156 | every document of a manifest passes the check that precedes decoding |
| ManifestCodec.WrittenIsRead | internal/snapshot/codec.go:22-61 | what was written passes every check and is read as the canonical manifest |
| ManifestCodec.EncodingInjective | internal/snapshot/codec.go:22-37 | equal documents come from manifests with the same canonical form |
| ManifestCodec.DecodedBytesExact | internal/snapshot/codec.go:145-150 | the size computed from padded base64 is the size of what was encoded |
| ManifestCodec.ValidateManifest | internal/snapshot/manifest.go:57-127 | the count, the payload digests and the entries, with the checks of single fields given |

## Left out

- Error values and their texts, except where the code looks at them: failures are told apart only where a caller does.
- Texts that are not valid UTF-8: strings are sequences of characters, so the checks for valid encoding have nothing to reject; the porcelain parsers work on bytes.
- Path rules of Windows, and the Windows variants of storage and process listing.
- DirectoryPublication.PublishPrivateDirectory: syncs may fail, but what they make durable after a crash is not modelled; the checks of names and sizes in its arguments are not modelled; access control lists are part of what a stat result says about privacy.
- `ReadPrivateFile` and `WritePrivateFile` outside the creation of the key: permissions, owners and partial writes are steps that may fail.
- IntegrityKey.CallsAgree: does not model deletion of the key file by others, which the claim excludes.
- EvidencePipeline.Classify: the list of errors that `Collect` returns beside the collection is an input of the plan builder, not derived from the listing.
- PlanBuild.Build: the wording of problems is given; the digest, the identifier and the encoded size limits may only fail, which counts as being stopped; evidence is grouped without agents, as in the source, so that the fingerprint's refusal of an unknown revalidation mode cannot stop it.
- Fingerprint.CandidateFingerprint: refusal of text that is not valid UTF-8, which strings of characters cannot express.
- ReadModes.ModesRightExactlyWhenNothingReturns: a log that can be confirmed is what the reader's own checks accept; that a scheduler exists under which the reader makes exactly those observations is not derived.
- ManifestCodec.ValidateManifest: the checks of single fields are one given predicate that looks neither at the entries nor at the zone of the time.
- StatusPorcelain.ParseStatusPorcelainZPaths: `strconv.Atoi` is modelled for the short texts a score can be.
- Signed plans, policy digests, snapshots of patches and archives, recovery references: they are mostly calls into cryptography, Git and archive libraries.
- Discovery of repositories, symbolic links in paths, configuration, the command line and rendering: they mostly reflect answers of the operating system.
