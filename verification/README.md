# Upgrade commands of a branch update, in Dafny

This project models the part of Renovate's branch worker that runs a
repository's configured upgrade commands. It covers three things:
- `execute-upgrade-commands.ts`: the shared helpers.
- `execute-pre-upgrade-commands.ts`: the pre-upgrade phase.
- `execute-post-upgrade-commands.ts`: the post-upgrade phase.

Each phase does the following:
- It checks a guard.
- It splits the branch's upgrades into the units of two passes. The update
  pass covers the upgrades whose tasks run per update. The branch pass is one
  synthesized unit that stands for the whole branch.
- It runs both passes, seeding the second with the first's results.

A unit with commands does three things, in order:
1. It flushes the pending package files and artifacts to the working tree.
2. It runs each command through the allow-list gate.
3. It reconciles the artifact list against what `git status` reports.

Files:
- `lists.dfy` (`Lists`): option and result types, order-preserving
  filtering, repetition and joining.
- `types.dfy` (`Types`): file changes, artifact errors, repository status,
  task settings, upgrade units, the branch configuration and global settings.
  It also holds the external collaborators as uninterpreted functions (`Env`).
- `upgrade_commands.dfy` (`UpgradeCommands`): `persistUpdatedFiles`,
  `upgradeCommandExecutor` and `updateUpdatedArtifacts`.
- `reconcile_proofs.dfy` (`ReconcileProofs`): what reconciliation does to
  the entries of one path, and to the paths it does not touch.
- `phase_runner.dfy` (`PhaseRunner`): the per-unit loop shared by
  `preUpgradeCommandsExecutor` and `postUpgradeCommandsExecutor`, the two
  passes, and the order of collaborator calls.
- `phase_entry.dfy` (`PhaseEntry`): the unit lists of both passes.
- `post_upgrade.dfy` (`PostUpgrade`): `executePostUpgradeCommands`.
- `pre_upgrade.dfy` (`PreUpgrade`): `executePreUpgradeCommands`.

The model is functional:
- Loops become recursive folds with the same iteration order.
- Each phase run returns its result and also the sequence of collaborator
  calls it made: flushes, gate calls and reconciliations.
- The working tree after a unit's commands is an input. `views(n)` is what
  the `n`-th status query observes, and a run counts its queries.

Behaviour of the code worth noting:
- An allow-list pattern matches a command when `regEx(pattern).test(cmd)` holds, an
  unanchored search, not a whole-string match. The model leaves the matcher
  uninterpreted.
- Template rendering happens inside the `try`
  (`execute-upgrade-commands.ts:47-50`). A rendering failure therefore
  becomes an artifact error and does not propagate.
- Reconciliation is not idempotent, and it does not keep one entry per path.
  A deleted path gains one Deletion per matching pattern per listing. A second
  run on the same status appends them again for a matching deleted path that
  is not also changed (`RerunAddsDeletions`). For a path that is also changed,
  the first pass drops its earlier Deletions before the second pass appends
  new ones.
- The first pass refreshes only the first entry of a path
  (`execute-upgrade-commands.ts:101-105`). An older Addition of the same path
  further down the list survives after the refreshed one, so the next flush
  writes its stale contents last (`StaleAdditionSurvives`).
- Command errors are not accumulated. `artifactErrors.concat(commandError)`
  discards its result (`execute-post-upgrade-commands.ts:54`,
  `execute-pre-upgrade-commands.ts:54`). Both executors return the errors
  they were given.
- The pre-upgrade phase has no pending-changes guard. It runs on any branch
  whose allow-list is not an explicitly empty array.

## Model

| member | source | states |
|---|---|---|
| UpgradeCommands.PersistUpdatedFiles | lib/workers/repository/update/branch/execute-upgrade-commands.ts:19-35 | No file is created or removed. Each existing file ends with the contents of its last Addition in the list, or keeps its contents if it has none. Deletions and Additions for paths that are not files change nothing. |
| UpgradeCommands.UpgradeCommandExecutor | lib/workers/repository/update/branch/execute-upgrade-commands.ts:37-86 | A command no allow-list pattern matches is neither rendered nor executed. It yields exactly one error, against the unit's package file, with the sanitized "has not been added to the allowed list" message. An empty allow-list rejects every command. At most one error is returned. No error is returned exactly when the command is allowed, its rendering (if templating is on) succeeds, and execution succeeds. The executed string is the command verbatim with templating off, and its rendering against the merged configuration with templating on. A rendering or execution failure yields one error carrying the sanitized failure message. |
| UpgradeCommands.FindByPath | lib/workers/repository/update/branch/execute-upgrade-commands.ts:101-103 | Finds the position of the first entry for the path, or reports that there is none. |
| UpgradeCommands.SaveAddition | lib/workers/repository/update/branch/execute-upgrade-commands.ts:100-116 | One matching (path, pattern) pair of the first pass. The result holds an Addition of the path with the new contents and no Deletion of the path. Every entry is an old one or that Addition. Entries of other paths all stay. |
| UpgradeCommands.RecordDeletion | lib/workers/repository/update/branch/execute-upgrade-commands.ts:128-135 | One matching (path, pattern) pair of the second pass. The result holds a Deletion of the path and no Addition of it. Every entry is an old one or that Deletion. Every old entry that is not an Addition of the path stays. |
| UpgradeCommands.SaveMatching | lib/workers/repository/update/branch/execute-upgrade-commands.ts:97-118 | The inner pattern loop of the first pass. It changes nothing unless some pattern matches. If one does, the path ends with its new Addition and no Deletion, and other paths' entries stay. |
| UpgradeCommands.SaveChangedPaths | lib/workers/repository/update/branch/execute-upgrade-commands.ts:96-119 | The first pass. Each entry is old, or is an Addition, with the current contents, of a listed path that matches a filter. Every such path holds its Addition and no Deletion. Entries of other paths stay. |
| UpgradeCommands.RemoveMatching | lib/workers/repository/update/branch/execute-upgrade-commands.ts:122-137 | The inner pattern loop of the second pass. It changes nothing unless some pattern matches. If one does, the path ends with a Deletion and no Addition, and every entry that is not an Addition of the path stays. |
| UpgradeCommands.RemoveDeletedPaths | lib/workers/repository/update/branch/execute-upgrade-commands.ts:121-138 | The second pass. Each entry is old, or is a Deletion of a listed path that matches a filter. Every such path holds a Deletion and no Addition. Every entry that is not an Addition of such a path stays. |
| UpgradeCommands.UpdateUpdatedArtifacts | lib/workers/repository/update/branch/execute-upgrade-commands.ts:88-141 | Each result entry is one of three kinds: an old entry; an Addition, with current contents, of a changed path that matches a filter; or a Deletion of a deleted path that matches a filter. A matching deleted path ends with a Deletion and no Addition. A matching changed path that is not deleted ends with its current Addition and no Deletion. Entries of untouched paths stay. With no filters the list is returned unchanged. |
| UpgradeCommands.NoMatchIsIdentity | lib/workers/repository/update/branch/execute-upgrade-commands.ts:94-140 | When no filter matches any path, both passes return the list they were given. |
| ReconcileProofs.UntouchedEntriesKept | lib/workers/repository/update/branch/execute-upgrade-commands.ts:94-140 | Consider the paths that are absent from the status or match no filter. Their entries come out with the same contents and in the same relative order. |
| ReconcileProofs.SaveChangedPathsFrame | lib/workers/repository/update/branch/execute-upgrade-commands.ts:96-119 | The first pass leaves the entries of paths it does not save exactly as they were, in order. |
| ReconcileProofs.RemoveDeletedPathsFrame | lib/workers/repository/update/branch/execute-upgrade-commands.ts:121-138 | The second pass leaves the entries of paths it does not remove exactly as they were, in order. |
| ReconcileProofs.NewDeletionsIsProduct | lib/workers/repository/update/branch/execute-upgrade-commands.ts:121-138 | The Deletions the second pass appends for a path number its matching patterns times its listings among the deleted paths. |
| ReconcileProofs.NewDeletionsZero | lib/workers/repository/update/branch/execute-upgrade-commands.ts:121-123 | No Deletion is appended for a path exactly when it is not listed as deleted or matches no filter. |
| ReconcileProofs.MatchCountPositive | lib/workers/repository/update/branch/execute-upgrade-commands.ts:122-123 | The inner loop hits at least once exactly when the path matches some filter. |
| ReconcileProofs.OccurrencesPositive | lib/workers/repository/update/branch/execute-upgrade-commands.ts:121 | A path is listed at least once exactly when it is among the deleted paths. |
| ReconcileProofs.RecordDeletionClosedForm | lib/workers/repository/update/branch/execute-upgrade-commands.ts:128-135 | Recording one Deletion drops the path's Additions and appends one Deletion. Existing Deletions stay. |
| ReconcileProofs.DeletionsAccumulate | lib/workers/repository/update/branch/execute-upgrade-commands.ts:128-135 | Recording `a` Deletions of a path and then `b` more is the same as recording `a + b`. |
| ReconcileProofs.RemoveMatchingClosedForm | lib/workers/repository/update/branch/execute-upgrade-commands.ts:122-137 | With `k` matching patterns, the inner loop drops the path's Additions and appends `k` Deletions, keeping the Deletions already there. |
| ReconcileProofs.EntriesWithDeletions | lib/workers/repository/update/branch/execute-upgrade-commands.ts:128-135 | Recording Deletions of a path acts on that path's entries alone. |
| ReconcileProofs.RemoveMatchingEntries | lib/workers/repository/update/branch/execute-upgrade-commands.ts:121-137 | A path's entries after the inner loop for some listed path: unchanged unless the listed path is that path, in which case they hold one Deletion per matching pattern. |
| ReconcileProofs.RemoveDeletedPathsEntries | lib/workers/repository/update/branch/execute-upgrade-commands.ts:121-138 | After the second pass, a path's entries are its old entries without Additions, followed by one new Deletion per matching pattern per listing. They are unchanged when there is none. |
| ReconcileProofs.DeletedPathEntries | lib/workers/repository/update/branch/execute-upgrade-commands.ts:88-141 | Take a deleted path that is not also a matching changed path. If it matches `k > 0` filters, it keeps its old Deletions, loses its Additions, and gains `k` Deletions per listing. If it matches none, its entries are unchanged. The count of new Deletions is zero exactly when it matches nothing. |
| ReconcileProofs.RerunAddsDeletions | lib/workers/repository/update/branch/execute-upgrade-commands.ts:121-138 | Take a matching deleted path that is not also changed. Reconciling again with the same status grows its entries by the same number of Deletions again, so the list changes. |
| ReconcileProofs.SaveAdditionEntries | lib/workers/repository/update/branch/execute-upgrade-commands.ts:100-116 | The first-pass step acts on the entries of its path alone. |
| ReconcileProofs.SaveAdditionSingle | lib/workers/repository/update/branch/execute-upgrade-commands.ts:100-116 | When a path held at most one entry, the first-pass step leaves exactly one: the new Addition. |
| ReconcileProofs.SaveAdditionInPlace | lib/workers/repository/update/branch/execute-upgrade-commands.ts:101-105 | A path's single existing Addition gets the new contents at its own position. The rest of the list is untouched. |
| ReconcileProofs.SaveAdditionAppends | lib/workers/repository/update/branch/execute-upgrade-commands.ts:106-116 | When the path has no Addition, the step drops its Deletions and appends a new Addition at the end. |
| ReconcileProofs.SaveAdditionIdempotent | lib/workers/repository/update/branch/execute-upgrade-commands.ts:100-116 | When a path held at most one entry, repeating the first-pass step changes nothing. |
| ReconcileProofs.SaveMatchingOnce | lib/workers/repository/update/branch/execute-upgrade-commands.ts:97-118 | When a path held at most one entry, the inner loop acts as a single step however many patterns match. |
| ReconcileProofs.SaveChangedPathsEntries | lib/workers/repository/update/branch/execute-upgrade-commands.ts:96-119 | After the first pass, a path that held at most one entry has exactly one Addition with its current contents if it is changed and matches a filter. Otherwise its entries are unchanged. |
| ReconcileProofs.ChangedPathEntries | lib/workers/repository/update/branch/execute-upgrade-commands.ts:88-141 | Take a matching changed path that is not deleted and held at most one entry. It ends with exactly one entry: an Addition with its current contents. |
| ReconcileProofs.ChangedAndDeletedEntries | lib/workers/repository/update/branch/execute-upgrade-commands.ts:96-138 | Take a matching path that is both changed and deleted and held at most one entry. The first pass replaces its entries with the new Addition and drops its Deletions. The second pass drops that Addition. The path ends with only the Deletions the second pass appends, at least one: one per listing and matching pattern. |
| ReconcileProofs.LockFileScenario | lib/workers/repository/update/branch/execute-upgrade-commands.ts:88-141 | Start from no artifacts, with a `*.lock` filter, `a.lock` modified and `b.lock` deleted. The result is an Addition of `a.lock` followed by a Deletion of `b.lock`. |
| ReconcileProofs.StaleAdditionSurvives | lib/workers/repository/update/branch/execute-upgrade-commands.ts:100-116 | Start from two Additions of `a.lock` with `a.lock` modified and matching. Only the first is refreshed, so the result is the refreshed Addition followed by the old second one, and the last Addition, the one a flush writes last, carries the stale contents. |
| PhaseRunner.RunUnits | lib/workers/repository/update/branch/execute-post-upgrade-commands.ts:28-63 | The unit loop makes one status query per unit with commands. A run with no such unit returns the artifacts unchanged and calls nothing. |
| PhaseRunner.RunCommandsTrace | lib/workers/repository/update/branch/execute-post-upgrade-commands.ts:45-55 | A unit's commands go to the gate exactly in configured order, with no flush or reconciliation among them. |
| PhaseRunner.RunUnitsTrace | lib/workers/repository/update/branch/execute-post-upgrade-commands.ts:37-61 | A run's calls come in blocks, one per unit with commands: a flush, then the unit's commands, then one reconciliation. All configured commands run in unit order. The reconciliations use each unit's task filters, not its top-level filters. There is one flush per unit with commands. |
| PhaseRunner.LastUnitStep | lib/workers/repository/update/branch/execute-post-upgrade-commands.ts:39-61 | A unit without commands changes nothing. A unit with commands first flushes the pending package files followed by the current artifacts. It then runs its commands and replaces the artifacts with one reconciliation against its task filters and the next status. |
| PhaseRunner.RunUnitsAppend | lib/workers/repository/update/branch/execute-post-upgrade-commands.ts:28-63 | Running two stretches of units is running the first, then the second from the artifacts and query count the first left. |
| PhaseRunner.RunUnitsIgnoresGate | lib/workers/repository/update/branch/execute-post-upgrade-commands.ts:45-61 | For the same observed working-tree states (`views`), the artifacts and query count are determined by the reconciler alone. The gate's results are dropped, and the flush and the commands reach the artifacts only through the working tree. |
| PhaseRunner.PhaseCommandsExecutor | lib/workers/repository/update/branch/execute-post-upgrade-commands.ts:19-65 | The executor returns exactly the configuration's errors (`?? []`), whatever the commands reported. With no unit with commands, it returns the configuration's artifacts and calls nothing. |
| PhaseRunner.RunBothPasses | lib/workers/repository/update/branch/execute-post-upgrade-commands.ts:103-109 | The two passes return the configuration's errors. When the branch unit has no commands, the result is the update pass's result. |
| PhaseRunner.TwoPassesAsOneRun | lib/workers/repository/update/branch/execute-post-upgrade-commands.ts:103-109 | Seeding the branch pass with the update pass's artifacts and errors makes the two passes one run over the update units followed by the branch unit. The result, query count, commands and reconciliation filters are the same, and the calls stay in unit blocks. |
| PhaseEntry.UpdateUnits | lib/workers/repository/update/branch/execute-post-upgrade-commands.ts:97-101 | The update pass keeps exactly the upgrades whose tasks are not in branch mode. |
| PhaseEntry.PerUpdateIsNotBranch | lib/workers/repository/update/branch/execute-post-upgrade-commands.ts:98-100 | "Execution mode absent or `update`" is the same as "not in branch mode". |
| PhaseEntry.UpdateUnitsKeepOrder | lib/workers/repository/update/branch/execute-pre-upgrade-commands.ts:89-93 | The update pass keeps the configured order: kept upgrades of an earlier stretch come before those of a later one. |
| PhaseEntry.UpdateUnitsAllWithoutBranchMode | lib/workers/repository/update/branch/execute-pre-upgrade-commands.ts:89-93 | With no upgrade in branch mode, the update pass is the whole upgrade list, in order. |
| PhaseEntry.DepNames | lib/workers/repository/update/branch/execute-post-upgrade-commands.ts:87 | There is one name per upgrade, in order. An absent name becomes the empty string. |
| PhaseEntry.BranchUnit | lib/workers/repository/update/branch/execute-post-upgrade-commands.ts:84-95 | The branch unit copies the branch's manager, name and file filters. Its dependency name is the space-join of all upgrades' names. It has no package file. It carries the branch's tasks for the phase exactly when they are in branch mode, and never the other phase's tasks. |
| PhaseEntry.BranchUnitHasCommandsIff | lib/workers/repository/update/branch/execute-post-upgrade-commands.ts:89-92 | The branch unit has commands exactly when the branch's tasks are in branch mode and list at least one command. |
| PhaseEntry.BranchUnitSingleDep | lib/workers/repository/update/branch/execute-pre-upgrade-commands.ts:79 | On a one-upgrade branch, the branch unit is named after that upgrade's dependency. |
| PhaseEntry.BranchUnitErrorsHaveNoLockFile | lib/workers/repository/update/branch/execute-post-upgrade-commands.ts:84-95 | Errors from the branch unit's commands name no lock file. |
| PhaseEntry.PhaseUnits | lib/workers/repository/update/branch/execute-post-upgrade-commands.ts:103-109 | The units of both passes end with the branch unit. |
| PostUpgrade.ExecutePostUpgradeCommands | lib/workers/repository/update/branch/execute-post-upgrade-commands.ts:67-110 | The phase returns nothing in exactly two cases: both pending lists are absent or empty, or the allow-list is an explicitly empty array (an absent one does not count). Otherwise it returns the configuration's errors unchanged. |
| PostUpgrade.PostUpgradeAsOneRun | lib/workers/repository/update/branch/execute-post-upgrade-commands.ts:103-109 | A running phase has the result of one run over the update units followed by the branch unit. It runs the same commands and reconciliation filters, in unit blocks. The calls themselves may differ: the branch pass's gate renders against the seeded configuration. |
| PostUpgrade.PostUpgradeBranchPassInert | lib/workers/repository/update/branch/execute-post-upgrade-commands.ts:89-92 | When the branch's tasks are not in branch mode, the branch pass changes nothing. |
| PostUpgrade.PostUpgradeIdle | lib/workers/repository/update/branch/execute-post-upgrade-commands.ts:23-64 | When no unit has commands, the phase returns the configuration's artifacts and errors and calls nothing. |
| PreUpgrade.ExecutePreUpgradeCommands | lib/workers/repository/update/branch/execute-pre-upgrade-commands.ts:67-104 | The phase returns nothing exactly when the allow-list is an explicitly empty array. Otherwise it returns the configuration's errors unchanged. |
| PreUpgrade.PreUpgradeFlushesAbsentAsEmpty | lib/workers/repository/update/branch/execute-pre-upgrade-commands.ts:38-43 | With no pending package files, a pre-upgrade run that reaches a unit with commands does not fail. Its first call flushes the artifacts alone, since absent package files count as an empty list. |
| PreUpgrade.PreUpgradeAsOneRun | lib/workers/repository/update/branch/execute-pre-upgrade-commands.ts:95-103 | A running phase has the result of one run over the update units followed by the branch unit. It runs the same commands and reconciliation filters, in unit blocks. The calls themselves may differ: the branch pass's gate renders against the seeded configuration. |
| PreUpgrade.PreUpgradeBranchPassInert | lib/workers/repository/update/branch/execute-pre-upgrade-commands.ts:81-84 | When the branch's tasks are not in branch mode, the branch pass changes nothing. |
| PreUpgrade.OnlyPreUpgradeRunsOnUnchangedBranch | lib/workers/repository/update/branch/execute-pre-upgrade-commands.ts:72-74 | On a branch with nothing pending and an allow-list that is not explicitly empty, the pre-upgrade phase runs and the post-upgrade phase does not. |

## Left out

- File system, process execution and `git status`: modelled as inputs.
  - `persistUpdatedFiles` acts on a map from the working tree's file paths to their contents. A path is a file exactly when it is a key.
  - `exec`, `compile`, `sanitize`, `minimatch` and `regEx(...).test` are uninterpreted functions in `Env`.
  - The status seen after a unit's commands is the `views` input. `readLocalFile` is the workspace's `read` function.
- The working directory handed to `exec` (`GlobalConfig.get('localDir')`) is not modelled. Execution depends only on the command string.
- Logging and `addMeta`: they do not affect any result.
- `GlobalConfig`: the allow-list and the templating switch are passed in as `GlobalSettings`.
- `mergeChildConfig`: kept symbolic as `MergedChild(config, upgrade)`. Only the template engine looks inside it.
- A pattern that `regEx` cannot compile: it throws outside the `try` (`execute-upgrade-commands.ts:46`). The model's matcher is total.
- A `null` from `readLocalFile`: the model reads a string for every path.
- An Addition with `null` contents: `persistUpdatedFiles` writes `contents!` (`execute-upgrade-commands.ts:25-32`), a further non-null assertion. Such an Addition can come from the configuration's pending lists. The model's `Addition` always carries a string.
- `Buffer` contents: one string type stands for both.
- `status.deleted || []`: the status always carries a list.
- In-place mutation at `execute-upgrade-commands.ts:105`: it also changes the caller's shared `FileChange` object. Aliasing is not modelled; the list is rebuilt functionally.
- async and Promise machinery: execution is modelled as sequential.
- Failures of collaborators awaited outside the `try` are not modelled: `localPathIsFile` and `writeLocalFile` (`execute-upgrade-commands.ts:23`, `:32`), `getRepoStatus` (`:93`) and a throwing `readLocalFile` (`:100`). Each would abort the whole phase. The model's file map, `views` and `read` cannot fail.
- Execution modes other than `update` and `branch`, such as an empty string, are not modelled.
- Three non-null assertions become preconditions rather than modelled errors. `PostUpgrade.CanRun` stands for the one on `config.updatedPackageFiles!` (`execute-post-upgrade-commands.ts:42`). `PostUpgrade.CanRun` and `PreUpgrade.CanRun` stand for the ones on `config.postUpgradeTasks!` and `config.preUpgradeTasks!` (`execute-post-upgrade-commands.ts:90`, `execute-pre-upgrade-commands.ts:82`).
- SaveChangedPathsEntries: the exact outcome for a changed path is proved only when that path held at most one entry before the pass. With more entries, only the weaker facts in `UpgradeCommands.SaveChangedPaths` are proved.
- ChangedPathEntries: same restriction as SaveChangedPathsEntries. A path that is both changed and deleted is covered by `ReconcileProofs.ChangedAndDeletedEntries`, under the same restriction. A matching changed path with several entries is covered only by `UpgradeCommands.UpdateUpdatedArtifacts`. That contract says it holds an Addition with its current contents and no Deletion; an older Addition may still follow it (`StaleAdditionSurvives`). When it is also deleted, it holds a Deletion and no Addition.
- ChangedAndDeletedEntries: same restriction as SaveChangedPathsEntries.
