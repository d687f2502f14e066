# A verified model of the assembly line's trusted core

The line runs agents that build, check and merge software. Its safety rests on a
few small concurrent protocols over git refs and files, and on the object-graph
code under them. This project models those protocols in Dafny and proves what
every run of them keeps.

`dafny verify dfyconfig.toml` checks the whole project.

## What is modelled

**The merge guard and the andon cord** (`Refs`, `Checks`, `Guard`, `GuardRuns`,
`GuardAlone`, `GuardRace`, `GuardOnRefs`). `Merge`, `Pull` and `Clear` are sequences of single ref
reads ended by one compare-and-swap. Any number of calls interleave in any
order; a merge holds the station's single check slot from its first step to its
last. Successful writes go to a log, and each log entry and each call in flight
remembers how long the log was at each of its reads. The invariant says that the
refs are a function of the log and that every entry satisfies what its call
checked at the moment it checked it; the main theorems follow from the log:

- the values of the guarded ref form a first-parent chain from the seed, every
  link admitted by an attestation of exactly that commit;
- between a pull and its clear at most one commit without the event's trailer
  lands, and its stop check came before the pull. The bound is tight: a concrete
  run in which one such commit lands is given;
- every stop was raised by an envelope that proves a failing required check on
  the commit that was master when the pull read it;
- with fresh event IDs a clear removes the event it read first, which was up
  during the whole call although the stop is re-read without comparing IDs.

`GuardAlone` gives the other direction: when nothing interleaves, each call
writes exactly when the refs satisfy one declarative condition. `GuardOnRefs` plays
every run on a ref store whose only writes are `UpdateRef` and `DeleteRefIf`.

**Objects, transfer, bundles and pruning** (`Objects`, `Transfer`, `Bundle`, `Prune`, `PruneLimits`,
`PushDuringPrune`). Objects
are content addressed: one function gives the content of every ID, a rank makes
the graph acyclic, and a store is the set of IDs it holds. A repository records
what it held after every single write, so "at no moment" is a statement about
that trace. A repository is `calm` when no write fails and no request is
cancelled; otherwise `Faults` lets any of them happen at any point.

**Workloads and the controller** (`Workloads`, `WorkloadRuns`, `WorkloadUpdates`, `Controller`,
`ControllerOutcomes`). The store's
operations run under its lock; the controller is a stateless pass over the
store and an abstract engine whose calls, like the reports to the store, may fail.
`WorkloadUpdates` and `ControllerOutcomes` say case by case what an update and a pass leave.

**Viceroy succession** (`Succession`, `SuccessionRuns`, `SupervisorRuns`). The mutex is dropped around
engine calls, so each critical section is one step and calls interleave between
them. `SupervisorRuns` plays every interleaving on the supervisor object.

**Smaller cores.** The witness's ring buffer against the maker's simple buffer
(`TailBuffer`); the constitution ref's optimistic updates (`Proposals`); delivery to
the inbox from two feeds, gateway sessions, and paging (`Inbox`, `InboxSessions`, `Decimal`); token budgets (`Budget`); the DSSE
pre-authentication encoding (`Dsse`); the andon watcher's step against a line that
anyone else may change between its calls, with every call it makes and every answer
it gets in a trace (`Watcher`).

## Where the code and its comments differ

- A bundle does not omit base's history in general. It omits the base commit and
  its tree; a tip that merges an ancestor of base carries that ancestor again.
  `Bundle.OmitsHistoryIff` gives the exact condition and `Bundle.BundleMayRepeatHistory` an example.
- A refused bundle can leave objects behind, though the comment says that nothing
  is stored: only the refs are untouched (`Bundle.RefusedFetchStoresObjects`, `Bundle.FetchBundle`).
- Prune can delete what a ref reaches. The walk marks a submodule entry without
  walking it; if the entry names a commit of this store that is met again later,
  that commit's tree is never marked (`PruneLimits.SubmoduleCanHideLiveObjects`). A closed store is safe to prune
  whatever its refs are exactly when every tree that names a stored commit as a
  submodule also has that commit's tree and parents among its entries
  (`PruneLimits.SafeWhateverTheRefsIff`); that this is needed rests on a ref to a bare tree. For given refs,
  `Prune.RefsStayComplete` proves safety when no ref reaches a commit that a live tree's submodule entry
  names, `Prune.MissesLiveIff` says which commits a walk hides something behind, and `Prune.RefCompleteIff` when that
  costs a ref anything.
- Prune with a grace does not keep the store closed, which the copier's comment
  takes for granted. A young commit can outlive its old tree (`PruneLimits.GraceCanBreakClosure`), and a
  later push then stops at that commit and sets a ref with an incomplete history
  (`PruneLimits.PruneThenPush`). `Prune.ClosedAfterPruneIff` says exactly when the store stays closed: no object that is
  merely spared, or named by a live submodule entry, has a child that goes. On any
  store, closed or not, a pushed or fetched ref is complete exactly when nothing it
  needs lies behind what the store held (`Transfer.CopyAddsExactly`, `Transfer.FetchOutcome`).
- The grace does not protect all of a candidate that is pushed while a prune runs:
  what it shares with old, unreferenced objects is not written again and may be
  deleted (`PushDuringPrune.GraceDoesNotProtectSharedObjects`). `PushDuringPrune.PushSurvivesIff` is the exact condition over all interleavings.
- Hand-made check results can satisfy both the merge test and the pull test:
  through a failing entry that a later one under its name replaces, or through one
  marked as skipped, which the pull's search does not look at
  (`Checks.HandmadeResultsSatisfyBoth`). `Checks.BothAcceptIff` says that these two are the only ways; results a witness
  signs take neither, whatever flag the guard works out (`Checks.MergeAndPullExclude`).
- The inbox can repeat a message, and a king's command: when the cursor is not
  saved after an append and the message comes again first (`Inbox.UnsavedCursorRepeats`). Over every run, with any
  write failing, nothing is repeated exactly when no event appends what the inbox
  already holds or has passed (`Inbox.RunIncreasesIff`). A newer delivery that is saved in between heals it
  (`Inbox.UnsavedThenNewerRepeatsNothing`).
- The gateway can lose messages for good, in two ways. Its backfill is one poll of
  at most 100 messages, and the first event after it moves the cursor past the rest
  (`InboxSessions.LongGapLosesMessages`). And an event whose append fails is only logged, so the next saved one moves
  the cursor past it, with no gap at all (`InboxSessions.FailedEventLosesAMessage`). `InboxSessions.SessionsLoseNothingIff` says that over any number
  of sessions, with any write failing, nothing is lost exactly when neither happens:
  every gap fits into its one poll, and no event is passed over that was not appended.
- A generation that was rolled back can stand in the history of generations, because
  its record is appended there before the current generation is written
  (`SuccessionRuns.RolledBackCanBeInHistory`). `SuccessionRuns.InHistoryIff` says exactly which generations do.
- A controller that reports a finished workload as running can take a station over
  its cap (`WorkloadRuns.RevivalCanExceedTheCap`). Over every run the caps hold after every step exactly when no
  report revives a workload that has no place left (`WorkloadRuns.AlwaysWithinIff`).

## Model

| member | source | states |
|---|---|---|
| `Refs.RefStore.UpdateRef` | line/gitx/git.go:299-319 | fails as moved exactly when the ref does not hold the old value, an empty one meaning that it must not exist; otherwise writes exactly when the object is there; every other ref stays |
| `GuardOnRefs.Act` | line/guard/guard.go:189-197 | carrying out any step on a store writes through the two conditional writes only and ends where the step says |
| `GuardOnRefs.Play` | line/gitx/git.go:299-319 | every run, played on a store, leaves the refs the theorems about runs speak of |
| `Refs.RefStore.DeleteRefIf` | line/gitx/git.go:401-418 | deletes the ref exactly when it holds the old value; every other ref stays |
| `Checks.Last` | line/guard/guard.go:210-213 | the entry a map filled in order keeps under a name: there is none exactly when no result has the name |
| `Checks.ByName` | line/guard/guard.go:210-213 | the map's keys and values are the last result under each name |
| `Checks.CheckResults` | line/guard/guard.go:209-230 | the loop computes the verdict on the first required check that is not accepted |
| `Checks.JudgeFirst` | line/guard/guard.go:214-229 | if the first k checks are accepted and the next is not, the verdict is the verdict on that one |
| `Checks.JudgeAccepts` | line/guard/guard.go:214-229 | everything is accepted exactly when each required check is |
| `Checks.AcceptedUnskippedRanClean` | line/guard/andon.go:234-238 | without the docs-only licence the results are accepted exactly when the last result of every required check ran under its command, unskipped, and exited 0 |
| `Checks.FlagMattersOnlyWithSkips` | line/guard/guard.go:121-131 | working out the docs-only flag only when something was skipped never changes the verdict |
| `Checks.PassesExactly` | line/guard/guard.go:214-229 | a check is accepted exactly when the last result under its name has its command and either ran and exited 0 or was skipped where both the check and the commit let it; it is failed exactly when that result ran to that nonzero exit |
| `Checks.AcceptedExactly` | line/guard/guard.go:121-131 | the results are accepted exactly when every required check passes so, with the docs-only flag worked out always or only when something was skipped |
| `Checks.RejectedExactly` | line/guard/guard.go:214-229 | otherwise the verdict names the first check that does not pass, as failed exactly when it ran to a nonzero exit |
| `Checks.SearchFailure` | line/guard/andon.go:155-171 | finds the first failing result of the first required check that has one, with its name and command and a nonzero exit, or nothing exactly when there is none |
| `Checks.FindFailureFirst` | line/guard/andon.go:156-167 | the search stops at the first failing pair in check order, then result order |
| `Checks.RunChecks` | line/witness/witness.go:242-286 | what is signed is a clean full run, or a clean prefix ended by the first failure; nothing is signed exactly when the runner fails on a check before any fails |
| `Checks.SignedNames` | line/witness/witness.go:243-277 | result i of a signed run is about required check i and its command; it is skipped exactly where that is allowed, and otherwise carries the exit and evidence the runner gave |
| `Checks.WitnessGuardAgree` | line/witness/witness.go:242-300 | the guard accepts a signed predicate exactly when it passed; otherwise it reports the first failing check, and a pull finds that same result |
| `Checks.MergeAndPullExclude` | line/guard/andon.go:155-172 | no signed predicate satisfies both the merge test, whatever docs-only flag the guard works out for itself, and the pull test |
| `Checks.HandmadeResultsSatisfyBoth` | line/guard/guard.go:209-230 | two predicates no witness signs satisfy both: a failing entry replaced by a later one, and one marked as skipped |
| `Checks.BothAcceptIff` | line/guard/andon.go:155-172 | results that pass the merge test satisfy the pull test exactly when a failing one is replaced under its name or marked as skipped |
| `Checks.FindFailureIff` | line/guard/andon.go:155-171 | the search finds a result exactly when it is the first failing one, and nothing exactly when no required check has a failing result |
| `Guard.VerifyExact` | line/guard/verify.go:23-60 | verification succeeds exactly when the envelope opens under a trusted key that may speak for the role and is about this commit, constitution and runner |
| `Guard.GuardTests` | line/guard/guard.go:121-182 | what a merge computes about checks, roles and the parent holds exactly when every required check passes under the commit's own docs-only flag, no changed path is reserved for other roles, and the base is the first parent |
| `GuardRuns.ApplyKeeps` | line/guard/guard.go:113-198 | every step of every call keeps the invariant tying refs, calls in flight and log together |
| `GuardRuns.InvAlways` | line/guard/guard.go:82-198 | the invariant holds in every reachable state |
| `GuardRuns.MastersFormPath` | line/guard/guard.go:157-169 | the values the guarded ref has had are a first-parent path |
| `GuardRuns.MasterIsAdmittedChain` | line/guard/guard.go:113-198 | in every run the guarded ref is a first-parent chain from the seed, and each link has an attestation of exactly that commit in which the last result of every required check ran clean, or was skipped on a docs-only commit where the check allows it, under a role that no changed path is closed to |
| `GuardRuns.LaterMasterDescends` | line/guard/guard.go:189-197 | a later master descends from every earlier one |
| `GuardRuns.UntaggedWasInFlight` | line/guard/guard.go:133-148 | a commit that lands on a stopped line without the trailer read the stop before the pull |
| `GuardRuns.LandingsExclude` | line/station/server.go:400-405 | two landings never overlap: the later one read the stop after the earlier one wrote |
| `GuardRuns.StopLetsOneThrough` | line/guard/guard.go:133-148 | in every run, between a pull and its clear at most one commit without the event's trailer lands, and it was in flight at the pull |
| `GuardRuns.StopWasRaised` | line/guard/andon.go:181-191 | a stop that is up was raised by a pull and not cleared since |
| `GuardRuns.StopsHaveProof` | line/guard/andon.go:115-192 | in every run each stop was raised by an envelope attesting to the commit that was master at its read; the event records that commit and the first failing required check with its exit and evidence |
| `GuardRuns.EventUpThroughout` | line/guard/andon.go:197-247 | with fresh event IDs the event a clear removes was up from before its first read to its write |
| `GuardRuns.ClearingCommitIsNewer` | line/guard/andon.go:223-233 | the clearing commit strictly descends, by first parents, from the failing commit |
| `GuardRuns.ClearingRunWasClean` | line/guard/andon.go:234-238 | the clearing attestation ran every required check, unskipped, to exit 0 |
| `GuardRuns.ClearIsSound` | line/guard/andon.go:197-247 | in every run with fresh event IDs a clear removes exactly the event it first read, on a clean run of a commit that was master during the call and descends from the failing one |
| `GuardRace.OneCanLandWhileStopped` | line/guard/guard.go:133-197 | a run in which a commit without the trailer lands on a stopped line: the bound of one is reached |
| `GuardRace.RunSplit` | line/guard/guard.go:82-198 | a run in two parts is the second part after the first |
| `GuardAlone.AdvancesIsARun` | line/guard/guard.go:82-198 | taking a call's steps in a row is one of the runs the theorems above speak of |
| `GuardAlone.MergeDecides` | line/guard/guard.go:113-198 | alone, a merge moves master to its commit and logs it exactly when the commit is admitted, as above, on top of master and the line is running or the commit carries the stop's trailer; otherwise nothing changes; either way the slot is free again |
| `GuardAlone.PullDecides` | line/guard/andon.go:115-192 | alone, a pull raises the stop exactly when it is down, the envelope proves that master fails a required check, and the event tells of that failure |
| `GuardAlone.ClearDecides` | line/guard/andon.go:197-247 | alone, a clear removes the stop exactly when the envelope proves a clean, unskipped run of a master the stop was not raised on |
| `Objects.Followed` | line/gitx/transfer.go:85-89 | the children of a tree are exactly the targets of its entries that are not submodules |
| `Objects.ChildMeans` | line/gitx/transfer.go:73-97 | a commit needs its tree and parents, a tag its target, a tree what its entries name except in other repositories |
| `Objects.ClosedIsComplete` | line/gitx/transfer.go:52-54 | a closed store that holds an object holds everything it reaches |
| `Transfer.Repo.SetRef` | line/gitx/git.go:281-294 | a ref is only ever set to an object the store holds |
| `Transfer.Copy` | line/gitx/transfer.go:61-104 | into any store, at every single write and however it ends, only objects the root reaches without passing through what the store held are added, each after its children; a missing object is one of those that the source lacks; it terminates on every acyclic graph |
| `Transfer.CopyAddsExactly` | line/gitx/transfer.go:61-104 | into any store a finished copy adds exactly those, and the root is complete then exactly when nothing it needs lies behind what the store held |
| `Transfer.ClosedHidesNothing` | line/gitx/transfer.go:52-54 | nothing lies behind a closed store, which is why the copy may stop at what is there |
| `Transfer.CopyStaysSound` | line/gitx/transfer.go:52-54 | so a closed destination stays closed after every write and at every return |
| `Transfer.CopyOutcome` | line/gitx/transfer.go:61-104 | success means the whole history is there; a missing object means neither side had it |
| `Transfer.SelectRefs` | line/gitx/transfer.go:131-147 | computes the wanted refs; fails exactly on an invalid refspec or a plain one that matches nothing |
| `Transfer.WantedIsWhatIsStored` | line/gitx/transfer.go:138-143 | a name is wanted exactly when some refspec selects some source ref and stores it under that name, and has the hash of the last such pair, in the order of refspecs and then refs |
| `Transfer.FetchedIsLeft` | line/gitx/transfer.go:159-190 | the refs a fetch leaves, name by name: that hash where one is stored; elsewhere the old value, or nothing if pruning and a refspec's right-hand side covers the name |
| `Transfer.WantedValues` | line/gitx/transfer.go:138-143 | every wanted ref has the value of some source ref |
| `Transfer.CopyWanted` | line/gitx/transfer.go:153-158 | everything wanted is copied before any ref changes, and nothing else |
| `Transfer.SetWanted` | line/gitx/transfer.go:159-163 | after success the refs are the old ones overridden by the wanted ones, and no ref ever points at an object that is not there |
| `Transfer.RemoveStale` | line/gitx/transfer.go:171-190 | after success exactly the stale refs are gone, and the objects stay |
| `Transfer.FetchFrom` | line/gitx/transfer.go:125-192 | into any store: at every moment new objects have their children and a changed ref its object; on success every name holds the hash of the last source ref stored under it, and every other is as before or pruned; it is refused exactly when the refspecs do not fit; a missing object or a cancelled request leaves every ref |
| `Transfer.FetchRunSound` | line/gitx/transfer.go:125-192 | from a sound store no state at any moment has a ref with incomplete history |
| `Transfer.FetchOutcome` | line/gitx/transfer.go:153-163 | a finished fetch stored exactly what is wanted and not behind what the store held; a ref it set is complete exactly when nothing lies behind; an object is missing exactly when the source does not supply it |
| `Transfer.SoundFetchOutcome` | line/gitx/transfer.go:153-163 | into a sound store everything wanted is complete afterwards, and an object is missing exactly when something wanted is incomplete between the two |
| `Transfer.PushCommit` | line/gitx/transfer.go:197-220 | into any store: an existing ref is never moved; undisturbed, it succeeds exactly when the source has what the commit reaches outside the store and the ref is new or already there; the ref is complete exactly when nothing it needs lies behind what the store held |
| `Bundle.ReachableFrom` | line/gitx/bundle.go:86-105 | true exactly when the target is the commit or an ancestor along parents the repository holds |
| `Bundle.BundleSelection.Add` | line/gitx/bundle.go:116-123 | adds exactly what is neither in base nor selected, and keeps the list duplicate-free |
| `Bundle.BundleSelection.HaveTree` | line/gitx/bundle.go:146-173 | records only what the tree reaches, with all children; fails only on a tree the repository lacks |
| `Bundle.BundleSelection.AddTree` | line/gitx/bundle.go:146-173 | selects only what the tree reaches without passing through base, with all children selected or in base; fails only on a lacking object |
| `Bundle.BundleSelection.AddCommit` | line/gitx/bundle.go:125-142 | the same for a commit, its tree and its history |
| `Bundle.HaveBase` | line/gitx/bundle.go:55-60 | records exactly the base commit and everything its tree reaches, and succeeds exactly when the repository holds the trees among it |
| `Bundle.SelectionIsBeyond` | line/gitx/bundle.go:107-173 | the selection is exactly what the tip reaches without touching base or its tree |
| `Bundle.CreateBundle` | line/gitx/bundle.go:36-82 | exactly when it bundles, reports nothing to bundle, or fails; the packed objects have no duplicates, are exactly what lies beyond base, and with base's closure cover everything the tip reaches |
| `Bundle.OmitsHistoryIff` | line/gitx/bundle.go:32-36 | a bundle omits all of base's history exactly when whatever the tip reaches and base does not leads into base's history only at base and its tree |
| `Bundle.BundleMayRepeatHistory` | line/gitx/bundle.go:32-36 | a tip that merges an ancestor of base carries it again |
| `Bundle.ReachableFromRefs` | line/gitx/git.go:457-487 | true exactly when the commit is in the history of what a ref under the prefix resolves to, a commit or an annotated tag of one |
| `Bundle.RefHoldsHistory` | line/gitx/git.go:455-487 | a ref to a commit, or to an annotated tag of it, makes that commit's held history available |
| `Bundle.FetchBundle` | line/gitx/bundle.go:179-209 | for any header and store: refuses exactly when some prerequisite is not in the refs; a refusal, a missing object or a cancelled request leaves every ref; otherwise it is the fetch of what the file packs |
| `Bundle.CarriedNeverLacks` | line/gitx/bundle.go:175-178 | into a store whose refs are complete, a file that carries what its refs reach never runs into a missing object |
| `Bundle.RefusedFetchStoresObjects` | line/gitx/bundle.go:175-178 | a bundle that lacks a second parent is refused, and the first parent stays in the store |
| `Bundle.HasPrerequisites` | line/gitx/bundle.go:190-195 | true exactly when every prerequisite is in the history of a ref under the prefix |
| `Bundle.RoundTrip` | line/gitx/bundle.go:36-209 | what one repository bundles, any closed one with base in its refs fetches whole: never a missing object, and undisturbed it succeeds exactly when the refspecs fit |
| `Prune.MarkReachable` | line/gitx/git.go:719-752 | the recursive marking computes the depth-first walk, submodule entries marked but not walked |
| `Prune.WalkAppend` | line/gitx/git.go:719-752 | walking a list is walking its parts in turn |
| `Prune.WalkExplains` | line/gitx/git.go:719-752 | a finished walk marked all it was given, and whatever it marked was walked, with all it leads to marked, or is a file or submodule entry of a live marked tree |
| `Prune.WalkJustified` | line/gitx/git.go:719-752 | everything marked is reached from a ref or named by a submodule entry of a live tree |
| `Prune.WalkFailsOnLack` | line/gitx/git.go:724-727 | a walk fails only on an object a ref reaches and the store lacks |
| `Prune.MarksAreSound` | line/gitx/git.go:692-706 | whatever order the refs come in, everything plainly live is marked and every mark has a reason |
| `Prune.Sweep` | line/gitx/git.go:707-717 | only old, loose, unmarked objects go, at every moment; after success none of them is left |
| `Prune.PruneUnreachable` | line/gitx/git.go:683-717 | deletes nothing if the walk fails, which takes a live object that is missing; never loses a plainly live object at any moment; finished, it leaves what is young or packed and, of the rest, exactly the marked ones |
| `Prune.PruneLeavesKept` | line/gitx/git.go:683-717 | with foreign submodules what is left is exactly what is spared, live, or named by a live submodule entry |
| `Prune.ClosedAfterPruneIff` | line/gitx/git.go:707-717 | the store stays closed exactly when no object that is only spared or named has a child that goes |
| `Prune.RefsStayComplete` | line/gitx/git.go:679-717 | no ref loses any of its history, whatever the grace, if no ref reaches a commit that a live tree's submodule entry names |
| `Prune.MissesLiveIff` | line/gitx/git.go:744-746 | for given refs in any order, the walk misses something live exactly when it left a child of a live commit unmarked that a submodule entry names |
| `Prune.RefCompleteIff` | line/gitx/git.go:707-717 | a ref stays complete exactly when all of its history is spared or marked by the walk |
| `Prune.ZeroGraceLeavesExactlyTheLive` | line/gitx/git.go:683-717 | when every object is loose and older than the cutoff, a sound store is left with exactly what its refs reach, which is closed |
| `PruneLimits.SafeWhateverTheRefsIff` | line/gitx/git.go:738-748 | a closed store marks everything live for every choice and order of refs exactly when no tree in it hides a stored commit's tree or parents behind a submodule entry |
| `PruneLimits.SubmoduleCanHideLiveObjects` | line/gitx/git.go:744-746 | an input on which prune deletes an object that a ref reaches |
| `PruneLimits.GraceCanBreakClosure` | line/gitx/git.go:707-717 | an input on which a prune with a grace leaves a store that is not closed |
| `PruneLimits.PruneThenPush` | line/gitx/transfer.go:65-67 | after that prune a push succeeds and leaves a ref whose history is incomplete, though the source had it |
| `PushDuringPrune.PushSurvivesIff` | line/guard/guard.go:65-69 | however a push and a prune's deletions interleave, the ref that is set has its whole history exactly when whatever the store held of it is marked or spared |
| `PushDuringPrune.GraceDoesNotProtectSharedObjects` | line/guard/guard.go:65-69 | an interleaving that deletes a tree the candidate shares with old garbage |
| `Workloads.RuleFor` | line/constitution/workloads.go:71-78 | returns a covering rule, or nothing exactly when none covers |
| `Workloads.RulesDisjoint` | line/constitution/workloads.go:126-134 | the nested loops accept exactly the rule lists in which no role and kind are covered twice |
| `Workloads.OnlyRule` | line/constitution/workloads.go:71-78 | with disjoint rules, whichever rule covers a request is the one that governs it |
| `Workloads.WorkloadStore.Expire` | line/station/workload_store.go:176-187 | exactly the overdue records move to expired, with an event |
| `Workloads.WorkloadStore.RequestWorkload` | line/station/workloads.go:178-239 | the new store is the swept one with one record more, under the next ID |
| `Workloads.WorkloadStore.Update` | line/station/workload_store.go:194-208 | an operation that fails saves nothing, not even the sweep; otherwise it changes the one record its ID names in the swept store, as `WorkloadUpdates` says |
| `WorkloadRuns.ApplyOk` | line/station/workload_store.go:189-235 | one operation keeps histories ending in the current state, sequential IDs, and approval before visibility |
| `WorkloadRuns.RunsKeepRecords` | line/station/workload_store.go:108-235 | over every run histories only grow and end in the current state, denied and removed are final, and what the controller sees was approved |
| `WorkloadRuns.IdsDistinct` | line/station/workload_store.go:230-235 | no two records share an ID |
| `WorkloadUpdates.UnknownFails` | line/station/workload_store.go:220-228 | an operation on an ID no record has changes nothing |
| `WorkloadUpdates.StopDecides` | line/station/workloads.go:274-294 | only the owner and gemba may stop a workload: one that waits is withdrawn, one the controller sees is marked once, any other stays |
| `WorkloadUpdates.ApprovalDecides` | line/station/workloads.go:250-269 | an approval turns exactly a waiting request into an approved one that expires its lifetime after the approval |
| `WorkloadUpdates.ReportDecides` | line/station/workloads.go:402-424 | a report sets exactly the state it reports, of a record the controller sees, and is refused for any other state or record |
| `WorkloadUpdates.StepHasAuthor` | line/station/workloads.go:250-294 | one operation marks or withdraws a workload only on its station's or gemba's word, and lets a waiting one through only on the king's |
| `WorkloadUpdates.StoppedByItsOwner` | line/station/workloads.go:51-54 | over every run a workload found stopped was stopped by its station or by gemba |
| `WorkloadUpdates.SomeoneLetItThrough` | line/station/workloads.go:211-224 | over every run a workload the controller sees was approved by the king or asked for under a rule that approves by itself |
| `WorkloadRuns.RequestDecides` | line/station/workloads.go:184-224 | a request is denied exactly when no rule for its role and kind has room for it; otherwise it is approved or waits, as the rule says |
| `WorkloadRuns.RequestRecords` | line/station/workloads.go:211-224 | the record is the next one, of that station, kind and lifetime, not stopped; it has an expiry exactly when approved, and its history says who asked and how it was answered |
| `WorkloadRuns.LiveCountCounts` | line/station/workloads.go:199-209 | the count is the number of the station's unstopped records of the rule's kinds that wait, are approved, or run |
| `WorkloadRuns.UpdateWithinQuota` | line/station/workloads.go:250-294 | no operation but a request adds a live, unexpired workload, unless it revives a finished one |
| `WorkloadRuns.RequestWithinQuota` | line/station/workloads.go:199-224 | a request adds one live workload to its own rule only, below the cap |
| `WorkloadRuns.RunsStayWithinQuota` | line/station/workloads.go:199-224 | over every run on a clock that does not go back, with no finished workload reported live, no station exceeds a rule's cap at any time |
| `WorkloadRuns.EmptyStoreIsFine` | line/station/workload_store.go:148-158 | the missing file, an empty store, satisfies the hypotheses of the run theorems |
| `WorkloadRuns.RevivalCounts` | line/station/workloads.go:411-424 | reviving a finished workload adds it to exactly the counts it falls under, unless it is stopped or its lifetime is over |
| `WorkloadRuns.ApplyWithinQuotaIff` | line/station/workloads.go:178-294 | one step keeps every station within quota exactly when it does not revive a workload under a capped rule with no place left |
| `WorkloadRuns.AlwaysWithinIff` | line/station/workloads.go:178-424 | over every run on a clock that does not go back, the quota holds after every step exactly when no step does |
| `WorkloadRuns.RevivalCanExceedTheCap` | line/station/workloads.go:411-424 | from the empty store, four steps take a station over its cap |
| `Controller.SendReport` | line/station/workloads.go:397-424 | a report that arrives changes one record, up to the sweep it brings forward |
| `Controller.Reconcile` | line/controller/controller.go:164-196 | without an error the record and object are as the pass asks, which `ControllerOutcomes` spells out; a refused start leaves a failed record and a refused removal leaves all as it was; nobody else's are touched; with nothing to say nothing is called |
| `Controller.CreateObject` | line/controller/controller.go:198-212 | unless its report is lost, the record says running exactly when there is an object now and failed otherwise; without an error the object runs or the spec is not supported |
| `Controller.Retire` | line/controller/controller.go:215-225 | without an error the object is gone and the record removed; if the engine refuses, both stay |
| `Controller.RemoveOrphans` | line/controller/controller.go:136-144 | exactly the unclaimed, labelled objects past their grace whose removal did not fail are gone, wherever something failed |
| `Controller.Once` | line/controller/controller.go:112-146 | a failure for one workload or orphan does not keep the pass from the others: everything no call failed for is reconciled, and orphans are gone, as `ControllerOutcomes` spells out; it ends without an error exactly when nothing failed; a settled state is left alone with no engine call |
| `ControllerOutcomes.DoomedIsRemoved` | line/controller/controller.go:165-171 | after a pass in which no call failed for it, a stopped or expired workload is removed, with its object |
| `ControllerOutcomes.ExitIsReported` | line/controller/controller.go:184-195 | an object that exited with code 0 makes its workload exited, any other code failed; a workload that said so already stays for the grace period and then goes with its object |
| `ControllerOutcomes.RunningIsReported` | line/controller/controller.go:178-182 | a running object makes its workload running and is kept |
| `ControllerOutcomes.ApprovedIsStarted` | line/controller/controller.go:173-177 | an approved workload without an object is started, or fails when its spec is not supported; any other without an object is left alone |
| `ControllerOutcomes.UnseenIsLeft` | line/controller/controller.go:125-131 | records the controller does not see stay as they were |
| `ControllerOutcomes.OrphanGoes` | line/controller/controller.go:133-144 | an object no workload claims goes exactly when it has a label and is past its grace |
| `Controller.TwoRounds` | line/controller/controller.go:164-225 | one record and its object settle in two error-free passes |
| `Controller.Converges` | line/controller/controller.go:112-225 | two error-free passes at a fixed clock leave nothing to do, and every stopped or expired workload removed and without an object |
| `Controller.ThreePasses` | line/controller/controller.go:112-225 | after two error-free passes a third changes no record and no object and makes no engine call |
| `Succession.Supervisor.Begin` | line/station/succession.go:408-416 | starts exactly when nothing is starting or pending |
| `Succession.Supervisor.End` | line/station/succession.go:418-422 | clears the starting flag and nothing else |
| `Succession.Supervisor.SetPending` | line/station/succession.go:489-492 | makes a new record pending |
| `Succession.Supervisor.Rollback` | line/station/succession.go:530-537 | rolls back only the record that is still pending |
| `Succession.Supervisor.CompleteCheckin` | line/station/succession.go:574-585 | records and closes only what is still pending, and only if the record is written whole |
| `Succession.Supervisor.Admit` | line/station/succession.go:281-303 | admits the current generation, unmarked requests, and one post of the pending generation |
| `SupervisorRuns.Perform` | line/station/succession.go:281-585 | every step of an interleaving, carried out on the supervisor, ends where the step says |
| `SupervisorRuns.Play` | line/station/succession.go:281-585 | every interleaving, played on a fresh supervisor, ends as the run does, so the run theorems hold of it |
| `SuccessionRuns.ApplyKeeps` | line/station/succession.go:408-585 | every critical section keeps the invariant, whatever the others are doing |
| `SuccessionRuns.AdmitKeeps` | line/station/succession.go:283-301 | a generation read as current before the lock is never mistaken for the pending one |
| `SuccessionRuns.SuccessionIsSafe` | line/station/succession.go:281-585 | in every interleaving at most one succession is launching or pending, the pending generation is current plus one, it becomes current or is rolled back but not both, its channel closes at most once, and it posts at most once before check-in |
| `SuccessionRuns.InHistoryIff` | line/station/succession.go:252-276 | in every interleaving a launched generation is in the history file exactly when some check-in of it wrote there while it was pending, and a rolled-back one exactly when such a check-in then failed to write the current generation |
| `SuccessionRuns.RolledBackCanBeInHistory` | line/station/succession.go:252-276 | a run that ends with a rolled-back generation in the history file |
| `SuccessionRuns.ApplyStepsUp` | line/station/succession.go:252-276 | a step moves the current generation up by at most one and never back |
| `SuccessionRuns.CurrentNeverGoesBack` | line/station/succession.go:252-276 | over every run the recorded generation never goes back |
| `SuccessionRuns.LaunchDecides` | line/station/succession.go:460-496 | alone, a launch makes the next generation, with the current commit as its predecessor, pending exactly when nothing is in progress and the commit is new |
| `SuccessionRuns.CheckinDecides` | line/station/succession.go:554-585 | alone, a check-in makes the pending generation current exactly when it names it and the record is written |
| `SuccessionRuns.RollbackDecides` | line/station/succession.go:530-537 | a watcher that gives up takes back its own generation exactly when that is still pending, and never another |
| `SuccessionRuns.BootDecides` | line/station/succession.go:425-456 | alone, generation 1 is recorded exactly when nothing is in progress and there is no generation, or only a first one that does not run |
| `SuccessionRuns.AdmitDecides` | line/station/succession.go:281-303 | a request that names a generation goes through exactly when it is the current one, or the pending one's one post, or there is none at all |
| `SuccessionRuns.OtherHeaders` | line/station/succession.go:289-291 | an unmarked request goes through, and one marked with no number only before there is any generation |
| `SuccessionRuns.OnlyTheLiveAreAdmitted` | line/station/succession.go:278-303 | in every interleaving numbered requests go through exactly for the generation read as current and for the pending one's first post, so a superseded generation is refused |
| `Proposals.NextProposal` | line/station/constitution.go:175-187 | one more than the highest number in use, or 1 |
| `Proposals.ApplyKeeps` | line/station/constitution.go:147-163 | every step keeps the log of writes well formed |
| `Proposals.UpdatesLoseNothing` | line/station/constitution.go:228-268 | in every run the constitution ref moves along a parent chain, each approved content came from a proposal on exactly the version it replaces, and no number names two proposals |
| `Proposals.HeadRankGrows` | line/linedir/linedir.go:424-438 | the constitution never returns to an earlier version |
| `Proposals.OneApprovalPerVersion` | line/station/constitution.go:244-250 | of the proposals made on one version at most one is ever approved, and none twice |
| `Proposals.NumbersDistinct` | line/station/constitution.go:150-160 | a number is given to one proposal |
| `Proposals.ApproveDecides` | line/station/constitution.go:228-268 | alone, an approval installs the content exactly when the proposal exists, is valid and was made on the version in force |
| `Proposals.ProposeDecides` | line/station/constitution.go:128-160 | alone, a proposal creates its ref, under the number after the highest, exactly when its text parses and differs from the constitution in force |
| `Proposals.EditDecides` | line/linedir/linedir.go:424-438 | alone, an edit moves the constitution to its commit |
| `TailBuffer.SimpleTail.Write` | line/maker/runner.go:566-574 | the buffer is the last max bytes of everything written |
| `TailBuffer.RingTail.Write` | line/witness/evidence.go:84-108 | the ring, unrolled, is the last max bytes of everything written, and it knows exactly whether any were lost |
| `TailBuffer.RingTail.CopyChunk` | line/witness/evidence.go:101-106 | one copy into a full ring slides the window by the bytes copied |
| `TailBuffer.RingTail.Result` | line/witness/evidence.go:111-120 | the tail in order, marked exactly when more than max bytes were written |
| `TailBuffer.CutEachTimeIsTail` | line/maker/runner.go:566-574 | cutting after every write keeps what one cut at the end would |
| `TailBuffer.Replay` | line/witness/evidence.go:76-120 | fed the same writes, the ring retains what the simple buffer does, with the marker exactly when bytes were dropped |
| `Decimal.ValueOfPrint` | line/attest/dsse.go:27-29 | printed decimals read back and have no leading zero |
| `Decimal.PrintOfValue` | line/attest/dsse.go:27-29 | digits with no leading zero are what printing their value gives |
| `Decimal.IdLessIsNumeric` | line/station/channel.go:357-362 | length then bytes is the numeric order on decimals without leading zeros |
| `Decimal.StrippedOrderIsNumeric` | line/viceroy/viceroy.go:327-332 | on all digit strings the order is numeric once leading zeros are dropped |
| `Decimal.LeadingZeroMisorders` | line/viceroy/viceroy.go:327-332 | a pair with leading zeros that it misorders |
| `Dsse.DecodeOfPae` | line/attest/dsse.go:27-29 | the encoding can be read back into its type and payload |
| `Dsse.PaeInjective` | line/attest/dsse.go:25-29 | equal encodings have equal types and payloads |
| `Inbox.DeliverKeeps` | line/station/channel.go:444-461 | one delivery keeps the inbox increasing and at or before the cursor exactly when the cursor is saved after an append |
| `Inbox.RunIncreasesIff` | line/station/channel.go:401-461 | over every run of polls and events with any of their writes failing, the inbox stays increasing, so nothing is repeated, exactly when no event appends what the inbox already holds or has passed |
| `Inbox.UnsavedThenNewerRepeatsNothing` | line/station/channel.go:445-460 | an unsaved cursor does no harm when a newer delivery is saved before the message comes again |
| `Inbox.UnsavedCursorRepeats` | line/station/channel.go:453-460 | with an unsaved cursor the message and the king's command are repeated |
| `Inbox.RunsDeliverOnce` | line/station/channel.go:401-461 | for every interleaving in which saving the cursor works, whichever appends fail, nothing is ever repeated |
| `Inbox.RunGrows` | line/station/channel.go:449-459 | in every run the inbox is only appended to, and the commands applied are the king's messages in it |
| `Inbox.AppliedOnce` | line/station/channel.go:456-458 | the king's commands applied are increasing too, so none is applied twice |
| `Inbox.FromKingIsIn` | line/station/channel.go:449-458 | the commands applied are exactly the king's messages in the inbox, when there is a king |
| `Inbox.SortByIdSorts` | line/station/channel.go:418-426 | the sort orders by number and rearranges: the same messages, as often |
| `Inbox.Channel.DeliverOne` | line/station/channel.go:444-461 | one delivery under the lock, for every outcome of its two writes: the feed is as the specification says, and it fails exactly when a write it needs does |
| `Inbox.Channel.Poll` | line/station/channel.go:401-439 | the first poll sets the cursor and stores nothing, and if that works there is a cursor; a later one delivers what was found in the order of its IDs, up to the first error |
| `Inbox.PollDelivers` | line/station/channel.go:433-438 | a finished poll delivers every newer message of others and nothing else, and keeps the inbox increasing |
| `Inbox.FirstCursorIsNewest` | line/station/channel.go:427-432 | the first cursor is not empty, is the newest ID found, if any, and at or past everything found, so history is not replayed |
| `Inbox.FirstMessageIsDelivered` | line/station/channel.go:427-467 | a channel found empty loses nothing: a message of another author sent at a later millisecond is delivered by the next finished poll |
| `Inbox.PollKeepsIff` | line/station/channel.go:433-437 | a poll keeps the feed in order exactly when it does not stop at an append it could not save |
| `Inbox.PollIsARun` | line/station/channel.go:433-437 | a poll, wherever it stops, is one of the runs the run theorems speak of |
| `Inbox.Channel.GatewayMessage` | line/station/channel_gateway.go:178-181 | an event is delivered only once the session is ready, and an error is only logged |
| `InboxSessions.RunSession` | line/station/channel_gateway.go:127-188 | for every outcome of the writes: frames before READY are dropped, the backfill polls once, and unless it failed later frames are delivered in order |
| `InboxSessions.TriesStand` | line/station/channel.go:444-461 | where the cursor stands after a stretch of deliveries of which any may fail |
| `InboxSessions.TriesAdd` | line/station/channel.go:444-461 | which messages are in the inbox then |
| `InboxSessions.TriesLoseNothingIff` | line/station/channel_gateway.go:248-266 | the stretch loses nothing exactly when no delivery moves the cursor over a message that is not there |
| `InboxSessions.BackfillFacts` | line/station/channel_gateway.go:191-199 | a backfill, wherever it stops, passes over nothing that is missing |
| `InboxSessions.SessionLosesNothingIff` | line/station/channel_gateway.go:168-199 | whatever writes fail, a session loses no message of others up to the cursor exactly when its gap fits into the one poll and no event is passed over that was not appended |
| `InboxSessions.SessionsLoseNothingIff` | line/station/channel_gateway.go:57-80 | the same over any number of sessions and polls; what is lost once stays lost |
| `InboxSessions.SmallGapFits` | line/station/channel.go:163-173 | a gap of at most 100 messages fits, and events whose appends work are not passed over |
| `InboxSessions.LongGapLosesMessages` | line/station/channel_gateway.go:168-181 | any longer gap of others' messages loses some as soon as an event follows |
| `InboxSessions.FailedEventLosesAMessage` | line/station/channel_gateway.go:261-265 | with no gap at all, an event whose append fails is lost once the next one is saved |
| `Inbox.ReadInbox` | line/station/channel.go:670-695 | a page is the first 200 messages after the cursor |
| `Inbox.LaterIsSuffix` | line/station/channel.go:682-693 | in an increasing inbox the later messages are a suffix |
| `Inbox.CursorAdvances` | line/viceroy/viceroy.go:312-313 | moving the cursor to the last message of a page leaves exactly the rest |
| `Inbox.CollectedGrows` | line/viceroy/viceroy.go:302-315 | what was collected stays right when the inbox grows between reads |
| `Inbox.FetchAll` | line/viceroy/viceroy.go:302-315 | paging terminates and returns every later message once, in order |
| `Budget.ExhaustedIsHundredPercent` | line/station/budget.go:66-69 | a status gives the percentage of the tokens used and the mark, 80 by default; it is exhausted exactly when all are used, that is at 100 |
| `Budget.WindowSuffices` | line/station/budget.go:120-127 | a log cut at a window at least the budget's meters as the whole log does |
| `Budget.OneUsageMore` | line/station/budget.go:43-58 | one usage more, wherever it stands in the log, adds its tokens within the window to the card budget under its card and to the budgets of the line and of its own role, and to nothing else |
| `Budget.OtherRolesAreFree` | line/station/budget.go:52-54 | what other roles spend leaves a role's budget as it is |
| `Budget.LongestWindow` | line/station/budget.go:120-122 | the window is the longest period of the budgets |
| `Budget.Spend` | line/station/budget.go:43-58 | what a budget was charged under each key, for exactly the keys it reports |
| `Budget.BudgetStatuses` | line/station/budget.go:40-73 | the list holds exactly one right status for every budget and key that reports |
| `Budget.BudgetNotices` | line/station/budget.go:89-111 | the loops compute the notices status by status |
| `Budget.NoticeMeaning` | line/station/budget.go:89-111 | an exhaustion notice comes out exactly when the report made the budget exhausted, a warning exactly when it crossed the mark without exhausting it |
| `Budget.OnceInAReport` | line/station/budget.go:89-111 | one report gives a notice at most once |
| `Budget.ExhaustionAnnouncedOnce` | line/station/budget.go:191-206 | over every run in which nothing ages out, exhaustion is announced once in all if the run exhausts the budget, and otherwise never |
| `Budget.WarningAnnouncedOnce` | line/station/budget.go:191-206 | likewise a low budget is announced once in all if some report took it past its mark without exhausting it, and otherwise never |
| `Budget.NoWarningAfterExhaustion` | line/station/budget.go:103-108 | no status is announced as low after it was announced as exhausted |
| `Budget.RouteAll` | line/station/budget.go:191-206 | the reports of a run give the notices those counts are about |
| `Budget.CutLogMetersAlike` | line/station/budget.go:120-127 | before and after a report the cut log meters like the whole one |
| `Budget.RouteUsage` | line/station/budget.go:191-206 | the notices are those of the whole log before and after the report |
| `Watcher.Watcher.ConfirmFailure` | line/andon/watcher.go:212-240 | a failure stands exactly after no stored passing run and a second failure |
| `Watcher.Watcher.Step` | line/andon/watcher.go:78-205 | every call to the line and the cards, in order and with its answer, is recorded: a new master is attested first, confirmed if it fails, and answered with a pull, a clear or a card as `Ran` lists; the last master attested afterwards is exact; a stop seen has a live card or is over; a stop its own pull raised has a card |
| `Watcher.NewMasterIsAttested` | line/andon/watcher.go:95-113 | a master that is not the last one attested is attested first of all; a known one is never attested, pulled on or cleared on |
| `Watcher.LastIffDealtWith` | line/andon/watcher.go:135-204 | a new master counts as the last one attested exactly when it failed twice and a stop is up, or passed and nothing is left to clear with it, or had passed before; otherwise the next step looks at it again |
| `Watcher.DealtWithOnce` | line/andon/watcher.go:98-103 | over every run, the steps after a master was dealt with that see no other do nothing but keep the stop's card |
| `Watcher.Watcher.NewMaster` | line/andon/watcher.go:106-205 | the part of a step that a new master gets, with its finding and the answer to it |
| `Watcher.Watcher.Examine` | line/andon/watcher.go:118-134 | the finding about an attested commit: it passes, fails twice, had passed before, or is not settled; a flake is filed exactly when a pass contradicts a failure |
| `Watcher.Watcher.AfterFailure` | line/andon/watcher.go:137-169 | a failing master is pulled on; the stop that raised or met has a live card, and a stale or failed pull makes the next step look again |
| `Watcher.Watcher.AfterPass` | line/andon/watcher.go:171-204 | a passing attestation on a stopped line is followed by a clear of that commit: cards are closed when the stop is gone, and otherwise the stop keeps one; a stored pass only keeps the card |
| `Watcher.Watcher.Watch` | line/andon/watcher.go:78-205 | over every run the steps link up as `Ran` says, and the watcher pulls on a commit exactly when it failed two attestations with no stored passing run between |

## Left out

- HTTP routing, JSON, Discord REST and websocket framing: only the steps behind them are modelled.
- Signatures, hashing and base64: `opens` and `event` of `Guard.Line` are arbitrary functions; that pulls write fresh event IDs is a stated hypothesis of the clear theorem.
- A constitution that changes during a guard run: the digest, runner, keys and required checks are fixed for a run.
- Stops written by hand and stops older than the run: the run starts with no stop, and only pulls write it.
- The existence test and the read of one ref count as one read; a ref that disappears between them is an early return.
- Candidate hex format, cleanup of rejected candidates, and the order in which queued callers get the check slot.
- go-git's packs, deltas and thin packs, and tree diffing: changed paths, docs-only and blob rules are functions of the commits.
- Path globbing in role rules and image rules: an uninterpreted function and a flag.
- Symbolic refs, and errors while listing refs or objects.
- `Prune.RefsStayComplete`: one direction only; for given refs the exact conditions, `Prune.MissesLiveIff` and `Prune.RefCompleteIff`, speak of the walk's marks, because these depend on the order of refs and parents.
- `Bundle.ReachableFromRefs`: on a store in which a ref's history is incomplete the search may end in an error; the model goes on.
- `Bundle.CreateBundle`: takes the commits that its names resolve to.
- `Transfer.FetchFrom`: the order of names is left open, which covers the sorted one.
- Workload specs: resolving defaults and resource bounds is reduced to whether the rule refuses, the lifetime, and whether the engine supports it; logs and details are dropped.
- `Controller.Converges`: speaks of error-free passes at one clock reading with an engine that only the controller changes.
- Succession: one process; the constitution's succession switch, the master and stop checks before a launch, and attesting and building, which only make a launch fail; `Resume`, container names and messages; writing the record is one of three outcomes, and no claim is made that some container always runs.
- `Proposals.UpdatesLoseNothing`: the constitution ref exists when the run starts; its first creation is not modelled.
- `Inbox.Channel.Poll`: what Discord returns is an input; `InboxSessions` takes it to be the first 100 messages after the cursor, and the history to be in the order of its IDs.
- `InboxSessions.RunSession`: what each write would do is an input; reactions, slash commands and the long wait of an inbox read are not modelled.
- `Inbox.FetchAll`: the inbox is read in finitely many versions; an inbox that grew before every page forever would never end the loop.
- `Budget.RouteUsage`: tokens are unbounded, so the 64-bit overflow of the percentage is not modelled; statuses of one budget come in any order, not sorted by card.
- `Watcher.Watcher.Step`: triage, flake card contents and logging; the line is an abstraction of the guard that others may change between any two calls.
- Heijunka, needs triage, the reaper, CI statistics, reports, the SQL store and agentsh: they would add only easy members or rest on code outside the repository.
