/**
  `executePostUpgradeCommands`: runs the post-upgrade tasks of a branch
  whose package files or artifacts changed, first per update and then once
  for the whole branch.
 */
module PostUpgrade {
  import opened Lists
  import opened Types
  import opened PhaseRunner
  import opened PhaseEntry

  /** Some package file or artifact of the branch is pending. */
  predicate HasChangedFiles(config: BranchConfig) {
    (config.updatedPackageFiles.Some? && |config.updatedPackageFiles.value| > 0)
    || (config.updatedArtifacts.Some? && |config.updatedArtifacts.value| > 0)
  }

  /** The phase returns nothing: no pending change, or commands explicitly disallowed. */
  predicate Skips(settings: GlobalSettings, config: BranchConfig) {
    !HasChangedFiles(config) || AllowListEmpty(settings)
  }

  /**
    What running the phase needs from the configuration: the branch's
    post-upgrade tasks (read through `config.postUpgradeTasks!`), and
    pending package files whenever some unit has commands (read through
    `config.updatedPackageFiles!`).
   */
  predicate CanRun(config: BranchConfig) {
    config.postUpgradeTasks.Some?
      && CanFlush(PostUpgrade, PhaseUnits(PostUpgrade, config), config.updatedPackageFiles)
  }

  function ExecutePostUpgradeCommands(env: Env, settings: GlobalSettings, config: BranchConfig,
                                      views: nat -> Workspace): (r: Option<ExecutorRun>)
    requires !Skips(settings, config) ==> CanRun(config)
    ensures r.None? <==> Skips(settings, config)
    ensures r.Some? ==> r.value.result.artifactErrors == config.artifactErrors.GetOr([])
  {
    if Skips(settings, config) then None
    else Some(RunBothPasses(env, settings, PostUpgrade, config, UpdateUnits(PostUpgrade, config),
        BranchUnit(PostUpgrade, config), views))
  }

  /**
    When the phase runs, its two passes amount to one run over the update
    units followed by the branch unit: the same result, the configured
    commands of those units in order, one flush and one reconciliation per
    unit with commands.
   */
  lemma PostUpgradeAsOneRun(env: Env, settings: GlobalSettings, config: BranchConfig, views: nat -> Workspace)
    requires !Skips(settings, config) && CanRun(config)
    ensures var r := ExecutePostUpgradeCommands(env, settings, config, views).value;
      var units := PhaseUnits(PostUpgrade, config);
      && r.result == PhaseCommandsExecutor(env, settings, PostUpgrade, units, config, views, 0).result
      && InUnitBlocks(r.trace)
      && CommandsRun(r.trace) == AllCommands(PostUpgrade, units)
      && FiltersUsed(r.trace) == CommandUnitFilters(PostUpgrade, units)
  {
    TwoPassesAsOneRun(env, settings, PostUpgrade, config, UpdateUnits(PostUpgrade, config),
        BranchUnit(PostUpgrade, config), views);
  }

  /** Unless the branch's tasks are in branch mode, the branch pass changes nothing. */
  lemma PostUpgradeBranchPassInert(env: Env, settings: GlobalSettings, config: BranchConfig, views: nat -> Workspace)
    requires !Skips(settings, config) && CanRun(config)
    requires config.postUpgradeTasks.value.executionMode != Some(BranchMode)
    ensures CanFlush(PostUpgrade, UpdateUnits(PostUpgrade, config), config.updatedPackageFiles)
    ensures ExecutePostUpgradeCommands(env, settings, config, views).value.result
      == PhaseCommandsExecutor(env, settings, PostUpgrade, UpdateUnits(PostUpgrade, config), config, views, 0).result
  {
    BranchUnitHasCommandsIff(PostUpgrade, config);
    CommandUnitCountAppend(PostUpgrade, UpdateUnits(PostUpgrade, config), [BranchUnit(PostUpgrade, config)]);
  }

  /** When no unit has commands, the phase returns the configuration's artifacts and errors and calls nothing. */
  lemma PostUpgradeIdle(env: Env, settings: GlobalSettings, config: BranchConfig, views: nat -> Workspace)
    requires !Skips(settings, config) && CanRun(config)
    requires CommandUnitCount(PostUpgrade, PhaseUnits(PostUpgrade, config)) == 0
    ensures var r := ExecutePostUpgradeCommands(env, settings, config, views).value;
      && r.result == PhaseResult(config.updatedArtifacts.GetOr([]), config.artifactErrors.GetOr([]))
      && r.trace == []
  {
    CommandUnitCountAppend(PostUpgrade, UpdateUnits(PostUpgrade, config), [BranchUnit(PostUpgrade, config)]);
  }
}
