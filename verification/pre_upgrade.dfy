/**
  `executePreUpgradeCommands`: runs the pre-upgrade tasks of a branch,
  first per update and then once for the whole branch. Unlike the
  post-upgrade phase it runs whether or not anything is pending, and it
  flushes an absent package-file list as an empty one.
 */
module PreUpgrade {
  import opened Lists
  import opened Types
  import opened PhaseRunner
  import opened PhaseEntry
  import PostUpgrade

  /** The phase returns nothing only when commands are explicitly disallowed. */
  predicate Skips(settings: GlobalSettings) {
    AllowListEmpty(settings)
  }

  /** The branch's pre-upgrade tasks, read through `config.preUpgradeTasks!`. */
  predicate CanRun(config: BranchConfig) {
    config.preUpgradeTasks.Some?
  }

  function ExecutePreUpgradeCommands(env: Env, settings: GlobalSettings, config: BranchConfig,
                                     views: nat -> Workspace): (r: Option<ExecutorRun>)
    requires !Skips(settings) ==> CanRun(config)
    ensures r.None? <==> Skips(settings)
    ensures r.Some? ==> r.value.result.artifactErrors == config.artifactErrors.GetOr([])
  {
    if Skips(settings) then None
    else Some(RunBothPasses(env, settings, PreUpgrade, config, UpdateUnits(PreUpgrade, config),
        BranchUnit(PreUpgrade, config), views))
  }

  /**
    `updatedPackageFiles ?? []`: with no pending package files, the first
    call of a pre-upgrade run over units some of which have commands is a
    flush of the artifacts alone.
   */
  lemma {:induction false} PreUpgradeFlushesAbsentAsEmpty(wiring: Wiring, units: seq<Upgrade>, arts: seq<FileChange>,
                                                         views: nat -> Workspace, queried: nat)
    requires CommandUnitCount(PreUpgrade, units) > 0
    ensures var r := RunUnits(wiring, PreUpgrade, units, None, arts, views, queried);
      |r.trace| > 0 && r.trace[0] == Persisted(arts)
    decreases |units|
  {
    if !HasCommands(PreUpgrade, units[0]) {
      PreUpgradeFlushesAbsentAsEmpty(wiring, units[1..], arts, views, queried);
    } else {
      assert [] + arts == arts;
    }
  }

  /**
    When the phase runs, its two passes amount to one run over the update
    units followed by the branch unit: the same result, the configured
    commands of those units in order, one flush and one reconciliation per
    unit with commands.
   */
  lemma PreUpgradeAsOneRun(env: Env, settings: GlobalSettings, config: BranchConfig, views: nat -> Workspace)
    requires !Skips(settings) && CanRun(config)
    ensures var r := ExecutePreUpgradeCommands(env, settings, config, views).value;
      var units := PhaseUnits(PreUpgrade, config);
      && r.result == PhaseCommandsExecutor(env, settings, PreUpgrade, units, config, views, 0).result
      && InUnitBlocks(r.trace)
      && CommandsRun(r.trace) == AllCommands(PreUpgrade, units)
      && FiltersUsed(r.trace) == CommandUnitFilters(PreUpgrade, units)
  {
    TwoPassesAsOneRun(env, settings, PreUpgrade, config, UpdateUnits(PreUpgrade, config),
        BranchUnit(PreUpgrade, config), views);
  }

  /** Unless the branch's tasks are in branch mode, the branch pass changes nothing. */
  lemma PreUpgradeBranchPassInert(env: Env, settings: GlobalSettings, config: BranchConfig, views: nat -> Workspace)
    requires !Skips(settings) && CanRun(config)
    requires config.preUpgradeTasks.value.executionMode != Some(BranchMode)
    ensures ExecutePreUpgradeCommands(env, settings, config, views).value.result
      == PhaseCommandsExecutor(env, settings, PreUpgrade, UpdateUnits(PreUpgrade, config), config, views, 0).result
  {
    BranchUnitHasCommandsIff(PreUpgrade, config);
  }

  /**
    On a branch with nothing pending and a non-empty or absent allow-list,
    the pre-upgrade phase runs and the post-upgrade phase does not.
   */
  lemma OnlyPreUpgradeRunsOnUnchangedBranch(env: Env, settings: GlobalSettings, config: BranchConfig,
                                            views: nat -> Workspace)
    requires !PostUpgrade.HasChangedFiles(config) && !AllowListEmpty(settings) && CanRun(config)
    ensures ExecutePreUpgradeCommands(env, settings, config, views).Some?
    ensures PostUpgrade.ExecutePostUpgradeCommands(env, settings, config, views).None?
  {
  }
}
