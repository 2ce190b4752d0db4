# Verified model of the Ubuntu Advantage client

The project models the parts of `uaclient` that keep state or carry accumulators across functions, and proves what
they promise.

- **`ua fix`** (`Usn`, `UsnMerge`, `FixStatus`, `FixPlan`, `FixVerdict`, `Fix`, `FixIssue`): regrouping USN metadata,
  merging the fixed versions of several USNs, overriding CVE statuses, grouping, planning pocket by pocket, upgrading,
  verdict, and the chain of these steps for one CVE or USN.
- **Contract documents** (`Json`, `SeriesOverrides`, `Overlay`, `KeyedLists`, `OverlayLaws`, `OverlayPaths`): the
  recursive diff, the series overrides and the deep overlay merge, on a JSON tree with a separate dropped-key marker.
- **The configuration object** (`Contract`, `Config`, `LockedCommand`): memoised views over the files of the data
  directory, with the entitlement dicts as live objects shared with the cached token; notices, lock file, locked commands.
- **Services** (`AptAuth`, `AptRepo`, `Policy`, `Services`, `Exclusion`, `Refresh`): credential lines, repository setup
  with rollback, the status read from the apt policy, enable, disable, detach and contract deltas, the exclusion of
  livepatch and FIPS over whole runs, and the refresh that hands the differences to the services.

`dpkg --compare-versions` is an arbitrary total preorder (`Common.VersionOrder`). Prompts, apt, snap, the contract server,
process liveness and `should_reboot` are parameters that every theorem quantifies over. Files are fields; JSON reads back
what was written. Loops over a dict whose order does not matter are proved for every order.

`dafny verify dfyconfig.toml` checks everything.

## What the code does, where a simpler claim would be false

- A failed `release_packages` leaves its cache half filled, and the next read answers with it (`Usn.Notice.ReadTwice`).
- `get_usn_affected_packages_status` keeps the *lowest* fixed version (`FixStatus.LowestIsFirstLeast`).
- Printed indices can repeat after an already installed pocket; `Fix.PrintedIndicesOverlap` says exactly when.
- "Resolved" is withheld after an upgrade that wants a reboot, even though everything was upgraded (`Fix.Exact`).
- The diff raises where a dict of the old document meets a non-dict (`Json.GetDictDeltas`, `Json.DiffNeedsShapes`).
- Overrides that raise once are popped all the same; the retry silently succeeds
  (`SeriesOverrides.Entitlement.RetryAfterFailure`).
- A second overlay merge can differ in lists without an id key (`OverlayPaths.IdempotenceNeedsIdKeys`), and overlays
  stack exactly under `OverlayLaws.Stackable`.
- Building the entitlements changes the cached token in place: exactly the last entry of each type has its overrides
  applied (`Config.UAConfig.Valid`).
- A stale lock is removed without its notice (`Config.UAConfig.CheckLockInfo`). `SystemExit` in the body of a locked
  command, as in the script run at boot, leaves the lock behind; `LockedCommand.ExitLeavesLock` says exactly when the next
  command is refused.
- The expression for auth lines captures the host only: an add for a repository with a path always makes the file longer,
  and an add for a bare host overwrites the line of any repository below it (`AptAuth.HostOverwritesPath`).
- Rejected credentials have no rollback; they can leave ESM reported as enabled (`AptRepo.RejectedCredentials`).
- A service's status is looked up in the whole apt policy by the `aptURL` that the contract names now. So a refresh that
  changes nothing but a url can turn a disabled service into an enabled one (`Exclusion.RevealedByUrl`), and a removed
  service stays enabled while another one's list file shows its url (`Services.Machine.Disable`).
- For the same reason livepatch and FIPS exclude each other over a run (`Exclusion.Run`) while FIPS is named by its current
  url, by none, or by a new one, but not when, with livepatch possibly on, a former url returns
  (`Exclusion.UrlDriftBreaksExclusion`, `Exclusion.UrlDetourBreaksExclusion`), nor when another service is named by the url
  of FIPS (`Exclusion.SharedUrlBreaksExclusion`).

## Model

| member | source | states |
|---|---|---|
| Usn.File | uaclient/security.py:399-437 | one package is filed under exactly one source, or one of three metadata errors is raised and nothing filed |
| Usn.Notice.ReleasePackages | uaclient/security.py:379-439 | the memoised property: the first read caches the regrouping up to the first error, later reads return the cache |
| Usn.Notice.ReadTwice | uaclient/security.py:379-439 | a failing read succeeds the second time, with the partial dict |
| Usn.RegroupOutcome | uaclient/security.py:379-439 | regrouping succeeds iff every binary has a link with a slash and no source entry meets an occupied slot; each slot then holds the last package listed for it |
| Usn.RegroupIgnoresOrder | uaclient/security.py:379-439 | with distinct slots the result is the same for every list order, and each package is in exactly one source group |
| UsnMerge.MergeSource | uaclient/security.py:509-518 | the inner loop keeps every pair of either side, with the earlier record unless the later one is strictly greater |
| UsnMerge.MergeOneSource | uaclient/security.py:498-518 | folding one source package changes that source only, pointwise, and leaves no empty group |
| UsnMerge.MergeOne | uaclient/security.py:497-518 | folding one USN is pointwise on (source, binary), whatever order its sources are visited in |
| UsnMerge.MergeReleased | uaclient/security.py:475-519 | every record that a USN publishes, its pocket absent, unknown to the beta map or mapped to false there, has its pair in the result, at its version or a greater one; every record of the result is the first published one of its version |
| UsnMerge.BestIsFirstGreatest | uaclient/security.py:475-519 | the picked record is from the first USN that attains the greatest version; there is none iff no USN publishes the pair |
| UsnMerge.BestIsPublished | uaclient/security.py:497-518 | the same in terms of the USNs' own records: one is picked iff some USN publishes the pair, it bounds all published versions, and no earlier one equals it |
| UsnMerge.MergeIgnoresUsnOrder | uaclient/security.py:475-519 | another order or repetition of the same USNs gives the same pairs, with versions equal up to ties |
| FixStatus.AffectedByCve | uaclient/security.py:622-635 | exactly the installed sources that are not "not-affected", with their own status |
| FixStatus.AffectedByUsn | uaclient/security.py:600-619 | a source is present iff some CVE names it, with the status `Lowest` picks |
| FixStatus.LowestIsFirstLeast | uaclient/security.py:607-619 | the picked status is from the first CVE that attains the *least* fixed version |
| FixStatus.OverrideStatus | uaclient/security.py:672-704 | without a USN source entry nothing changes; else released at the USN version, in the pocket of some USN package that has one |
| FixStatus.PocketSource | uaclient/security.py:236-251 | esm-infra and esm-apps are pockets of their own, updates and security the standard one; any other goes to esm-infra iff "esm" occurs in the fixed version |
| FixStatus.ReleasedGroup | uaclient/security.py:714 | renaming "ignored" to "deferred" inside a status never creates or destroys "released" |
| FixStatus.ReplaceAbsent | uaclient/security.py:714 | replacing in a string that lacks a character of the pattern, or whose result lacks one of the replacement, changes nothing |
| FixStatus.ReplaceFirst | uaclient/security.py:714 | where the pattern stands for the first time it is replaced, and the rest is treated alike |
| FixStatus.ReplaceNowhere | uaclient/security.py:714 | where it never stands nothing changes |
| FixStatus.SelectAre | uaclient/security.py:707-718 | a group holds each source with that key once, and no other |
| FixStatus.GroupByStatus | uaclient/security.py:707-718 | every affected source is in exactly one group, in sorted order: "ignored" ones under "deferred", and any other under its own overridden status unless "ignored" occurs in that; no group is empty |
| Common.SortedKeysAscend | uaclient/security.py:709 | the keys that a sorted loop visits ascend in Python's string order |
| FixVerdict.PlanSource | uaclient/security.py:899-919 | the outdated binaries of one source are exactly those installed below their fixed version; a binary without one is reported |
| FixVerdict.PlanReleased | uaclient/security.py:895-919 | each pocket, told by the published pocket string and fixed version, gets exactly the sources published there and exactly their outdated binaries |
| FixVerdict.Announce | uaclient/security.py:879-919 | the groups without a fix are collected once each and numbered 1 to m in order without repeats; the released group is planned |
| FixVerdict.PlannedPockets | uaclient/security.py:895-919 | a pocket has binaries to upgrade iff some source published there has an outdated binary, and then it has sources |
| FixVerdict.BetweenAre | uaclient/security.py:797-830 | the sources of consecutive pockets are distinct, and exactly those published there |
| FixPlan.UpgradePackages | uaclient/security.py:1123-1170 | apt is reached by root only and, for a UA pocket, only with a subscription in force and its service on; a refusal precedes any apt call; success means that the lists were updated and then exactly the given packages installed |
| FixPlan.HandleReleased | uaclient/security.py:779-832 | pockets up to the first blocking one are handled in order; it fails iff apt raises there; its sources and all later ones come back unfixed, and it reports success iff none does; all are already installed iff every binary list is empty |
| FixPlan.HandlePocket | uaclient/security.py:801-830 | one pass of the loop, `continue` included: the index advances only past a pocket that installs, and a failed or refused pocket leaves its sources unfixed |
| FixPlan.UnfixedIffBlocked | uaclient/security.py:829-832 | something stays unfixed iff some pocket blocks |
| Fix.RunIsOrderly | uaclient/security.py:779-832 | indices stay in 1..total, nothing is attempted behind a blocking pocket, and what lies before it was installed by a successful upgrade |
| Fix.RunIsTruthful | uaclient/security.py:796-827 | each handled pocket lists exactly the sources published there, hands exactly their outdated binaries to apt, and reports the outcome of that call |
| Fix.TruthHeedsServices | uaclient/security.py:797-830 | nothing is installed from a UA pocket without a subscription in force and its service on; a binary that only "esm-apps" sources want is never installed without that service, nor one that only "esm-infra" sources want without theirs |
| Fix.PrintedIndicesOverlap | uaclient/security.py:815-824 | the messages of two pockets print a common index iff the first was already installed, the second lists packages, and the installing pockets between them hold fewer packages than the first lists |
| Fix.IndexPrintedTwice | uaclient/security.py:815-824 | a concrete run in which two different packages are both printed as number 1 of 2 |
| Fix.UnfixedAre | uaclient/security.py:829-830 | the unfixed list is each source that stays affected, once, and nothing else |
| Fix.CountFits | uaclient/security.py:880-893 | the sources without a fix and those of the three pockets never exceed the number of affected packages |
| Fix.FixedBinary | uaclient/security.py:899-919 | a planned binary is up to date already, or is among those a successful upgrade installed |
| Fix.FixedWhenNothingBlocks | uaclient/security.py:895-967 | if all sources are released and apt installed what was planned, every installed binary of every affected source has a fix and has received it |
| Fix.PrintVerdict | uaclient/security.py:935-967 | the closing messages, in all cases of fixed, already installed and reboot |
| Fix.VerdictPrinted | uaclient/security.py:935-967 | a run says exactly one of resolved and not resolved, and lists what is still affected once, unless nothing is |
| Fix.ResolvedExactly | uaclient/security.py:880-967 | the three accumulators mean: every source released; no pocket blocked; nothing needed an upgrade |
| Fix.StopsWhereAptFails | uaclient/security.py:779-832 | the loop raises iff apt fails in some pocket that needs an upgrade and no earlier one is blocked |
| Fix.BrokenOff | uaclient/security.py:921-931 | the events of such a run are as orderly and truthful as those of any other, and hold no verdict |
| Fix.ConcludeTruthful | uaclient/security.py:880-967 | over the whole run, the packages announced without a fix are exactly the unreleased ones, and every pocket message and upgrade is as planned |
| Fix.UpgradeAndConclude | uaclient/security.py:921-967 | it raises exactly when apt fails first; otherwise the verdict is sound and exact and the unfixed list conserved and printed; in both cases indices and attempts are orderly and messages and upgrades truthful, for all answers |
| Fix.PromptForAffectedPackages | uaclient/security.py:854-967 | the whole run from affected packages to verdict: each of the four ways it can end has its exact condition, the verdict and the events mean what they say, and no UA pocket is installed from without its own service |
| FixIssue.FixCve | uaclient/security.py:522-550 | the whole fix of a CVE: "resolved" is printed only if every installed binary of every affected source has a public fix and is at or above every version that any of its notices publishes outside a beta pocket, or was upgraded by apt; nothing is affected iff no installed source has another status than "not-affected"; it breaks off iff a notice cannot be regrouped |
| FixIssue.FixUsn | uaclient/security.py:551-597 | the same for a USN, over all notices that its CVEs name, each once and in sorted order; it also breaks off iff they name no CVE or the USN has no packages for any series |
| FixIssue.FixedIsRemedied | uaclient/security.py:475-519 | a fix of the merged versions is a fix of every version published |
| Json.GetDictDeltas | uaclient/util.py:262-287 | succeeds iff no dict meets a non-dict in its recursion, and then returns the pointwise delta, for every key order |
| Json.DeltaKeys | uaclient/util.py:262-287 | a key is in the delta iff the documents differ there, presence counted; the delta is empty iff they are equal |
| Json.DiffRoundTrip | uaclient/util.py:262-287 | patching the old document with the delta gives exactly the new one |
| Json.DiffNeedsShapes | uaclient/util.py:270-274 | a concrete pair on which the diff raises |
| SeriesOverrides.Entitlement.ApplySeriesOverrides | uaclient/util.py:145-178 | in place, for every key order: succeeds iff every dict to be updated meets a dict, a list of pairs or an empty value, and the dict is then the overridden one |
| SeriesOverrides.Entitlement.RetryAfterFailure | uaclient/util.py:169-178 | the second application succeeds, even after a first one that raised, unless the override map brings a `series` key of its own; then it succeeds iff that one applies |
| SeriesOverrides.OverriddenKeys | uaclient/util.py:170-178 | keys not overridden are unchanged, other values replaced, dicts updated sub-key by sub-key |
| SeriesOverrides.UpdatesAre | uaclient/util.py:170-178 | a dict can be updated by exactly a dict, an empty string, and a list of pairs with string keys, told by their shape |
| SeriesOverrides.LastPairCounts | uaclient/util.py:170-178 | of several pairs for a key the last one counts |
| SeriesOverrides.OverridesAppliedOnce | uaclient/util.py:145-178 | the result has a `series` key iff the override map brings one; a second application with any series is the identity iff it does not |
| Overlay.MergeOverlay | uaclient/config.py:742-786 | the loops and recursion compute the pure deep merge, for every key order, and raise exactly outside `Mergeable` |
| Overlay.UpdateDictList | uaclient/config.py:758-771 | the list helper: the updated base items in place, then the unmatched overlay items |
| Overlay.UpdateMatching | uaclient/config.py:761-769 | one overlay item is merged into every base item with its id, and reported as unmatched iff there is none |
| KeyedLists.MergedList | uaclient/config.py:758-771 | in a list with unique ids: base order, then new ids in overlay order; under each id the two items merged |
| OverlayLaws.MergedKeyedLists | uaclient/config.py:777-784 | the same for the value under a key, an empty base list included |
| OverlayLaws.NamedListsMerge | uaclient/config.py:50-53 | entitlements are told apart by "type" and resources by "name": a base item that the overlay names is merged in place, any other one stays, and exactly the overlay items of a new name come behind them |
| OverlayLaws.UnnamedListsMerge | uaclient/config.py:758-771 | under any other key two dicts in a list are merged, whatever they hold |
| OverlayLaws.MergeWellFormed | uaclient/config.py:742-786 | merging keeps documents well-formed |
| OverlayLaws.SelfMerge | uaclient/config.py:742-786 | a well-formed document merged into itself is unchanged |
| OverlayLaws.MergeIdempotent | uaclient/config.py:742-786 | merging the same overlay twice equals merging it once |
| OverlayLaws.CoversIsAbsorption | uaclient/config.py:742-786 | merging an overlay gives exactly the overlay iff it covers the base: all its keys, its dicts in depth, and its keyed lists as a prefix of ids whose items are covered |
| OverlayLaws.OverlaysStack | uaclient/config.py:742-786 | merging b then c equals merging c into b first, list order included, iff the three are stackable: a condition on keys, kinds and ids alone |
| OverlayPaths.WellFormedMerges | uaclient/config.py:742-786 | well-formed documents merge without an error |
| OverlayPaths.MergeByChildren | uaclient/config.py:773-786 | one level: children of one side are kept, children of both are merged |
| OverlayPaths.LeavesArrive | uaclient/config.py:742-786 | every leaf of the overlay is found in the result under its own path |
| OverlayPaths.UntouchedPathsStay | uaclient/config.py:742-786 | every base path that the overlay does not touch reads the same |
| OverlayPaths.IdempotenceNeedsIdKeys | uaclient/config.py:758-771 | a concrete overlay with a list of dicts under no id key for which the second merge differs |
| OverlayPaths.StackingNeedsKinds | uaclient/config.py:742-786 | three concrete documents that do not stack |
| Config.OverrideEntries | uaclient/config.py:209-216 | the loop over the names overrides the last entry of each type in place and stops at the first error; over untouched dicts it ends well iff all those overrides can be applied |
| Config.UAConfig.constructor | uaclient/config.py:77-86 | a new object over any files, lock and notices included, has empty caches, hence coherent ones |
| Config.UAConfig.MachineToken | uaclient/config.py:264-286 | memoised; succeeds iff reading file and overlay does, with the token a fresh object would compute |
| Config.UAConfig.Entitlements | uaclient/config.py:189-217 | memoised over the dicts of the token; a first read succeeds iff nothing in the file raises, and answers what the document says: the names are the types of its resource entitlements, of several of a type the last one counts, with its overrides applied, and the resource token is the "token" of the last item of `resourceTokens` with that type, or none iff there is no such item |
| Config.UAConfig.BuildEntitlements | uaclient/config.py:200-217 | building leaves the caches coherent, gives what a fresh object reads, and shares no dict between two names |
| Config.BuiltView | uaclient/config.py:203-216 | the live dicts read like the contract's entitlements with overrides applied once |
| Contract.ParsesShaped | uaclient/config.py:189-217 | the lookups raise nothing exactly on documents that have every key that is looked up, of the right kind |
| Contract.ParsedIsReadOff | uaclient/config.py:189-217 | what is built from such a document is what it says, and it can be built iff the last overrides of every type can be applied |
| Config.UAConfig.AddNotice | uaclient/config.py:152-162 | appended unless present, so the list stays duplicate-free |
| Config.UAConfig.RemoveNotice | uaclient/config.py:164-182 | drops exactly the matching notices; no empty file is left |
| Config.KeepAre | uaclient/config.py:164-182 | the notices left are those that do not match, without duplicates if there were none |
| Config.KeepOrder | uaclient/config.py:164-182 | removal distributes over concatenation, so the order is kept |
| Config.UAConfig.WriteMachineToken | uaclient/config.py:364-386 | writing the token drops both caches |
| Config.UAConfig.WriteOther | uaclient/config.py:364-386 | any other write drops the caches iff the key is an access key |
| Config.UAConfig.WriteLock | uaclient/config.py:374-379 | writing the lock adds its operation notice once |
| Config.UAConfig.CheckLockInfo | uaclient/config.py:104-138 | the holder of a live lock; root removes a stale one, its notice stays |
| Config.UAConfig.DeleteCacheKey | uaclient/config.py:332-344 | exactly that file is gone, with the caches if it was the token and with the operation notices if it was the lock |
| Config.UAConfig.DeleteCache | uaclient/config.py:346-349 | no file of `data_paths` is left and every other file is, in any order of deletion; both caches are dropped |
| Config.UAConfig.StillValid | uaclient/config.py:189-217 | coherence survives whatever leaves the object and the shared dicts alone |
| Config.Perform | uaclient/config.py:189-386 | every read, write, delete and notice keeps the caches coherent and does to the files what its name says |
| Config.Session | uaclient/config.py:189-386 | after any sequence of steps the entitlements equal those of a fresh object over the same files, and what the token document says |
| LockedCommand.Process.TakeLock | uaclient/cli.py:126-129 | the lock is written and its notice present once |
| LockedCommand.Process.WithLock | uaclient/cli.py:101-137 | refused under a live lock, with nothing changed; otherwise the lock is released iff the body returns |
| LockedCommand.Process.Run | uaclient/cli.py:1006-1046 | after a command that returns, or raises anything but SystemExit and LockHeldError, Ctrl-C included, neither lock nor operation notice is left, and all other notices are kept; the exit code of each ending |
| LockedCommand.RunTwice | uaclient/cli.py:101-137 | hence a second command is not refused |
| LockedCommand.ExitLeavesLock | lib/reboot_cmds.py:89-97 | a body that exits leaves its lock; the next command is refused iff a process has that pid or the user is not root, and otherwise, if it ends in the ordinary way, leaves neither lock nor notice |
| AptAuth.RewriteLine | uaclient/apt.py:249-261 | one line, "machine", whitespace, a host: replaced when that whole host is the repository, preceded by the new line when it is another part of it, else kept |
| AptAuth.MatchedIsCaptured | uaclient/apt.py:249-252 | the expression captures a host exactly from a line that is "machine", whitespace, that host, and then nothing or a character that is in no host |
| AptAuth.NewLines | uaclient/apt.py:246-263 | the loop with its flag yields the specified file |
| AptAuth.AuthFile.AddEntry | uaclient/apt.py:227-265 | the file after an add: it holds the line with these credentials and every old line that does not capture the repository |
| AptAuth.AuthFile.RemoveEntry | uaclient/apt.py:268-283 | exactly the lines in which "machine", the repository and "/ login" occur go; a file left empty is removed |
| AptAuth.AuthFile.AddThenRemove | uaclient/apt.py:227-283 | for a repository with a path, removing after adding leaves what removing alone would have |
| AptAuth.RemoveAfterAdd | uaclient/apt.py:227-283 | the same as an equation between files |
| AptAuth.OldLinesSurvive | uaclient/apt.py:246-263 | all old lines survive in order iff none is overwritten; with a path none ever is, and every add makes the file longer |
| AptAuth.NewLineComesFirst | uaclient/apt.py:235-263 | the new line is present, and no other entry for the repository, with whatever whitespace after "machine", comes before it |
| AptAuth.HostOverwritesPath | uaclient/apt.py:249-256 | adding a bare host overwrites the line of a repository below it |
| AptRepo.AuthOnlyIffNever | uaclient/entitlements/esm.py:38-87 | auth-only removal is chosen iff the pin priority is "never" |
| AptRepo.WriteSource | uaclient/apt.py:201-220 | one deb line per suite of the running series, -updates suites commented out when updates are off |
| AptRepo.RemovedIsCleanedUp | uaclient/entitlements/repo.py:384-425 | after a removal there are no credentials and no list file, or, for ESM that is pinned away, the list file with every line active and the "never" pin |
| AptRepo.CompletedIsSetUp | uaclient/entitlements/repo.py:280-370 | after a completed setup there are credentials and a list file under the url without one trailing slash, with an active line iff a suite of the series calls for one; FIPS is pinned high, and ESM no longer away |
| AptRepo.RemovalDisables | uaclient/entitlements/repo.py:384-425 | both ways of removal leave the service's own files without an enabled repository, under any url |
| AptRepo.SetupOutcome | uaclient/entitlements/repo.py:280-382 | as far as the service's own files go: after a failed prerequisite or apt-get update they hold no enabled repository; a completed setup enables it iff the url has no trailing slash, a suite is active and no foreign "never" pin is in the way |
| AptRepo.RejectedCredentials | uaclient/entitlements/repo.py:326-370 | without rollback: disabled files of a service become enabled ones iff only its "never" pin hid a still listed repository |
| AptRepo.RemovedThenRejected | uaclient/entitlements/repo.py:326-370 | which is the state an auth-only removal leaves |
| Policy.NothingListed | uaclient/entitlements/repo.py:145-168 | once a service's own files hold no enabled repository, the policy shows a url iff the list file of another service does; nothing new is shown |
| Policy.StepKeeps | uaclient/entitlements/repo.py:145-168 | a change of one service's files whose list file keeps its url or takes the contract's keeps livepatch and FIPS exclusive; for a FIPS service, if livepatch is off, or the service enabled before, or nothing new is shown |
| Policy.StepShows | uaclient/entitlements/repo.py:145-168 | what such a change makes appear as enabled is the service itself, or shares a url with it |
| Policy.NamesAscend | uaclient/contract.py:254 | the entitlement classes are processed in the order in which their names sort |
| Policy.ClassesInOrder | uaclient/entitlements/__init__.py:16-24 | they are all services, each once, with livepatch behind all others |
| Policy.StatusIs | uaclient/entitlements/repo.py:145-168 | read off the files: a service is enabled iff its url stands on an active line of some list file that is not pinned away and, for FIPS, the kernel does not say otherwise; livepatch iff it is installed and on |
| Services.Machine.CanEnable | uaclient/entitlements/base.py:141-175 | possible iff entitled, not enabled, applicable, outside a container for FIPS and livepatch, on an allowed cloud for FIPS, without FIPS Updates for FIPS and without either for livepatch and, for FIPS, livepatch is off or may and can be switched off; only then it is; an error iff that switching off is all that fails |
| Services.Machine.HandleIncompatible | uaclient/entitlements/base.py:177-243 | succeeds iff livepatch was off, or disabling it was allowed, confirmed and worked; it is off exactly after a success |
| Services.Machine.DisableLivepatch | uaclient/entitlements/livepatch.py:181-191 | refused when not enabled; else off, or an error with nothing changed |
| Services.Machine.RemoveAptConfig | uaclient/entitlements/repo.py:384-425 | credentials gone, list file gone or pinned away, and the policy then shows a url iff another service's list file does, even if the apt-get update then fails |
| Services.Machine.SetupAptConfig | uaclient/entitlements/repo.py:280-382 | the result and the files after every way a setup can end, rollback included |
| Services.Machine.InstallPackages | uaclient/entitlements/repo.py:245-278 | a failed installation leaves the service's own files disabled, and shows nothing new |
| Services.Machine.EnableRepo | uaclient/entitlements/repo.py:97-124 | succeeds iff nothing stands in the way and setup and installation go through, with the files of a completed setup; the service is then enabled iff `ComesUp`, and after an error only by rejected credentials or a failed key export |
| Services.Machine.SetupLivepatch | uaclient/entitlements/livepatch.py:120-179 | succeeds iff each needed command does; the client is on or off as the last command left it |
| Services.Machine.EnableLivepatch | uaclient/entitlements/livepatch.py:68-118 | succeeds iff nothing stands in the way and every command goes through, and raises iff the client cannot be installed; changes livepatch only while no FIPS service is enabled |
| Services.Machine.Enable | uaclient/entitlements/base.py:113-122 | succeeds exactly when `Startable` says so, with the files of a completed setup, raises exactly when `StartFails` does, and is then reported as enabled iff `ComesUp`; never FIPS beside FIPS Updates, nor livepatch beside either; touches the files of its own service only, whose url is the old one or the contract's, and keeps the exclusion under whatever urls the contract fits |
| Services.Machine.PerformEnable | uaclient/cli.py:514-556 | `ua enable` of one service: unless it raises, the status cache agrees afterwards |
| Services.Machine.Disable | uaclient/entitlements/repo.py:126-139 | when it is refused, when it raises and what it changes, exactly; never enables anything; after a success the service is still enabled iff another one's list file shows its url |
| Services.Machine.PerformDisable | uaclient/cli.py:446-460 | `ua disable` of one service: unless it raises, the status cache agrees afterwards; livepatch is off if it can be disabled |
| Services.Machine.Withdraw | uaclient/entitlements/base.py:417-443 | a service no longer entitled is disabled iff it is believed to be enabled and is, and raises iff that does; it can stay so by a declined prompt or another one's list file only |
| Services.Machine.BaseDeltas | uaclient/entitlements/base.py:381-465 | keeps the exclusion under whatever urls the contract fits; without `allow_enable` enables nothing, with it an `enableByDefault` service that can start; an unentitled service goes; when it raises and when it leaves the delta to the subclass, exactly |
| Services.Machine.Reconfigure | uaclient/entitlements/repo.py:219-233 | a url already applied changes nothing, a dropped one or a missing list file raises, any other url has the files removed and set up again |
| Services.Machine.ApplyDirectives | uaclient/entitlements/repo.py:219-243 | the url first, then the packages; succeeds iff the url is not dropped and applied already or can be rewritten, and the packages can be installed; without a new url nothing is enabled |
| Services.Machine.RepoDeltas | uaclient/entitlements/repo.py:184-243 | keeps the exclusion unless a FIPS url is written on the word of a cache while livepatch is enabled; without `allow_enable` only the service itself can come out enabled, and only if it was or the cache says so, and those that share a url with it; a new url of an enabled service is written |
| Services.Machine.FollowDirectives | uaclient/entitlements/repo.py:211-243 | directives that change are applied exactly to a service that the cache calls enabled, or without a cache the machine; a dropped url then raises |
| Services.Machine.LivepatchDeltas | uaclient/entitlements/livepatch.py:213-257 | keeps the exclusion; a new token restarts an enabled livepatch; enables nothing without `allow_enable` and `enabledByDefault`; each branch succeeds iff its commands do |
| Services.Machine.ProcessAll | uaclient/contract.py:252-281 | the same over all services; deltas that every service already meets touch nothing and raise nothing, and one dropped url of a service cached as enabled is enough for an error; livepatch is switched on only by a delta that enables it by default |
| Services.ProgressOneMore | uaclient/contract.py:252-281 | one pass of that loop keeps everything the processing has kept since it started |
| Services.Machine.Refresh | uaclient/contract.py:335-388 | keeps the exclusion unless a FIPS url is written on the word of a cache while livepatch is enabled; without `allow_enable` and `enabledByDefault`, and with a cache that agreed before, a service that comes out enabled was enabled before, or the policy already showed what the new contract looks for, or another service's list file names its url; without deltas exactly what the policy already showed is enabled |
| Services.Machine.UpdateStatus | uaclient/config.py:558-578 | after a root status the cache calls enabled exactly the services shown whose files say so |
| Services.Machine.Detach | uaclient/cli.py:626-657 | refused iff not confirmed, succeeds if no command fails; a success leaves neither contract nor status cache, livepatch off, and every service that was enabled without its own list file showing its url, unless a prompt was declined; an error keeps contract and cache |
| Services.Machine.DisableAll | uaclient/cli.py:648-649 | the loop over the services found enabled: only removals happen, and it raises only if a command fails |
| Exclusion.Run | uaclient/entitlements/base.py:141-243 | no run of enable, disable, refresh, status and detach steps, attaching included, ends with livepatch and a FIPS service both enabled, as long as each refresh names each FIPS service by its current url, by none, or by one that no list file can name (a former one only while livepatch is sure to be off), names no other service by it, and brings a FIPS url in a delta only while no cache that calls FIPS enabled can meet an enabled livepatch |
| Exclusion.Perform | uaclient/entitlements/base.py:141-243 | each step keeps the machine as the history of the run describes it |
| Exclusion.PerformRefresh | uaclient/contract.py:335-388 | an allowed refresh, one that changes the url of FIPS included, keeps it so |
| Exclusion.SafeUnderNewNames | uaclient/entitlements/repo.py:145-168 | under the urls an allowed refresh names, no list file makes FIPS appear beside livepatch |
| Exclusion.FirstNamesAreAllowed | uaclient/contract.py:335-388 | the condition of a run never rules out a url that is named for the first time, unless another service is named by it |
| Exclusion.SameContractIsAllowed | uaclient/contract.py:335-388 | nor a refresh to the contract at hand |
| Exclusion.UrlDriftBreaksExclusion | uaclient/entitlements/repo.py:145-168 | a former url must not return: three steps that end in both services enabled, for every contract that entitles livepatch and does not find FIPS by its url, from any machine with FIPS alone enabled by its own list file |
| Exclusion.UrlDetourBreaksExclusion | uaclient/entitlements/repo.py:145-168 | the exclusion also breaks when FIPS is enabled under another url in between, whether or not livepatch is entitled there |
| Exclusion.SharedUrlBreaksExclusion | uaclient/entitlements/repo.py:145-168 | it breaks without any refresh when another service is named by the url of FIPS: enabling that one beside an enabled livepatch asks nobody |
| Exclusion.StaleCacheBreaksExclusion | uaclient/entitlements/repo.py:205-233 | and when a delta with a url meets a stale cache, a list file without that url, and livepatch |
| Exclusion.RevealedByUrl | uaclient/entitlements/repo.py:145-168 | a refresh that only changes the url turns disabled into enabled when the policy already shows the new url, FIPS beside an enabled livepatch included |
| Refresh.ProcessEntitlementDelta | uaclient/contract.py:284-332 | one entitlement: overrides in place, diff, dispatch by name, with every error case; a dict without overrides left is unchanged |
| Refresh.UnchangedIsQuiet | uaclient/contract.py:307-332 | an unchanged entitlement reaches no service, even though overrides are applied a second time |
| Refresh.ChangeIsDelivered | uaclient/contract.py:307-332 | a changed or new entitlement of a known service reaches it, with a delta that rebuilds the new document |
| Refresh.UnknownIsNotTold | uaclient/contract.py:311-327 | an unknown or empty name reaches no service |
| Refresh.TypeDecides | uaclient/contract.py:307-332 | a new entitlement whose type is falsy, a list or a dict ends in an unexpected error, one that names an entitlement class is told, any other is passed over |
| Refresh.ServicesAreKnown | uaclient/entitlements/__init__.py:16-24 | the names dispatched to are exactly those of the entitlement classes |
| Refresh.ProcessInOrder | uaclient/contract.py:252-281 | an error in one entitlement does not stop the others; an unexpected one outweighs a user-facing one |
| Refresh.ProcessEntitlementsDelta | uaclient/contract.py:233-281 | the calls are those of the new entitlements in sorted order |
| Refresh.ChangedAreTold | uaclient/contract.py:254-332 | the services told are exactly the known ones that are new or changed, in order, each with a delta that rebuilds its document; one missing from the new contract is never told |
| Refresh.UnchangedContractIsQuiet | uaclient/contract.py:233-332 | the same entitlements again: no call and no error |
| Refresh.ReactToNewToken | uaclient/contract.py:386-388 | the invalidated cache is read again, which fails iff the new file cannot be read, and the differences delivered |
| Refresh.RequestUpdatedContract | uaclient/contract.py:335-388 | exact conditions for not asking and not being answered, with the files unchanged; otherwise the differences between the two tokens are delivered, which are none for the same entitlements |

## Left out

- Exclusion.Run: the condition is on the contracts and deltas of the run, not on the machine, so it is sufficient only: a
  former url may return without harm when no list file names it any more. That each of its clauses is needed is shown by
  steps that break it and end with both services enabled: a returning url (`UrlDriftBreaksExclusion`,
  `UrlDetourBreaksExclusion`), a url that a list file names already (`RevealedByUrl`), one that another service shares
  (`SharedUrlBreaksExclusion`), a stale cache (`StaleCacheBreaksExclusion`).
- Services.Machine.Refresh: deltas are given, not computed from the two contracts; `Refresh.ChangedAreTold` says which
  services get one.
- Refresh.ReactToNewToken: how a service's processing ends is an arbitrary function of the call, so effects of one service
  on the entitlement dicts of another are not modelled.
- Overlay.MergeOverlay: works on values, so that overlay sub-dicts inserted into the base are not shared with the overlay.
- UsnMerge.MergeReleased: works on values; that no USN's own dict is changed holds by construction.
- SeriesOverrides.Entitlement.ApplySeriesOverrides: a pair whose key is not a string, or that is itself a dict of two
  keys, counts as an error, since a document here has string keys only and no key order.
- OverlayLaws.MergeIdempotent: well-formedness is sufficient; when a second merge is the identity outside it is not said.
- Json.GetDictDeltas: Python's `1 == True` is not modelled; the two are different values here.
- AptAuth.NewLines: `\w` is ASCII only, and lines are already split; a missing final newline is not modelled.
- Config.UAConfig.DeleteCacheKey: a key stands for its own file, so two keys that name one path are not modelled.
- Config.UAConfig.CheckLockInfo: the content of the lock file is a pair; malformed content is not modelled.
- Services.Machine.CanEnable: `applicability_status` is one flag of the outside world, and a contract that expires is not
  modelled, since entitlements built from a token carry no `expires`.
- Services.Machine.EnableRepo: nothing is claimed after rejected credentials or a failed key export, where the code does
  not roll back.
- Mutual exclusion between processes: checking and writing the lock are two steps.
- HTTP, cloud identity, subprocesses, permissions, message texts, wrapping and colours, argparse, logging, status tables.
- Debian version ordering, regular expressions beyond the one for auth lines, JSON and YAML parsing.
- The output of `apt-cache policy`: it is taken to follow from the list and preferences files of the services, each list
  file under the pin of its own service, and a url is looked up literally, not as a regular expression.
- The memo of `contract_expiry_datetime`, which is never invalidated, and the FIPS `packages` property, which extends the
  cached list in place.
- FIPS notices and the metapackage per cloud; the keyring file that both FIPS services share.
- A whole `directives` or entitlement that is dropped from a contract: services missing from the new one are not visited,
  and the marker has no `get`.
- The requests of `fix_security_issue_id` for CVEs and notices: the answers are parameters, and a notice has the id it was
  asked for by. The machine id and the messages after a detach; `lib/`, the apt hooks and the message files.
