/**
  How both phase entry points split a branch's upgrades into the units of
  their two passes: the upgrades whose tasks run once per update, and one
  synthesized unit standing for the whole branch.
 */
module PhaseEntry {
  import opened Lists
  import opened Types
  import opened UpgradeCommands
  import opened PhaseRunner

  /** `is.emptyArray(allowedUpgradeCommands)`: an allow-list that is given and empty. An absent list does not count. */
  predicate AllowListEmpty(settings: GlobalSettings) {
    settings.allowedUpgradeCommands == Some([])
  }

  /** The branch configuration's own task settings for the phase. */
  function BranchTasks(phase: Phase, config: BranchConfig): Option<UpgradeTasks> {
    match phase
    case PreUpgrade => config.preUpgradeTasks
    case PostUpgrade => config.postUpgradeTasks
  }

  /** `!tasks?.executionMode || tasks.executionMode === 'update'`. */
  predicate RunsPerUpdate(phase: Phase, u: Upgrade) {
    match TasksOf(phase, u)
    case None => true
    case Some(tasks) => tasks.executionMode.None? || tasks.executionMode == Some(UpdateMode)
  }

  /** The unit's tasks for the phase are set to run once for the whole branch. */
  predicate InBranchMode(phase: Phase, u: Upgrade) {
    TasksOf(phase, u).Some? && TasksOf(phase, u).value.executionMode == Some(BranchMode)
  }

  /**
    The upgrades of the update-scoped pass, in their configured order:
    every upgrade except those whose tasks are in branch mode.
   */
  function UpdateUnits(phase: Phase, config: BranchConfig): (r: seq<Upgrade>)
    ensures forall i | 0 <= i < |r| :: r[i] in config.upgrades && !InBranchMode(phase, r[i])
    ensures forall i | 0 <= i < |config.upgrades| ::
      config.upgrades[i] in r || InBranchMode(phase, config.upgrades[i])
  {
    PerUpdateIsNotBranch(phase);
    var perUpdate := (u: Upgrade) => RunsPerUpdate(phase, u);
    FilterMembers(config.upgrades, perUpdate);
    Filter(config.upgrades, perUpdate)
  }

  /**
    The update pass keeps the configured order: the kept upgrades of an
    earlier stretch of the list come before those of a later one.
   */
  lemma UpdateUnitsKeepOrder(phase: Phase, config: BranchConfig, a: seq<Upgrade>, b: seq<Upgrade>)
    requires config.upgrades == a + b
    ensures UpdateUnits(phase, config)
      == UpdateUnits(phase, config.(upgrades := a)) + UpdateUnits(phase, config.(upgrades := b))
  {
    FilterAppend(a, b, (u: Upgrade) => RunsPerUpdate(phase, u));
  }

  /** An execution mode is either absent, `update` or `branch`. */
  lemma PerUpdateIsNotBranch(phase: Phase)
    ensures forall u :: RunsPerUpdate(phase, u) <==> !InBranchMode(phase, u)
  {
    forall u ensures RunsPerUpdate(phase, u) <==> !InBranchMode(phase, u) {
      if TasksOf(phase, u).Some? && TasksOf(phase, u).value.executionMode.Some? {
        var mode := TasksOf(phase, u).value.executionMode.value;
        assert mode == UpdateMode || mode == BranchMode;
      }
    }
  }

  /** With no upgrade in branch mode, the update pass runs every upgrade, in order. */
  lemma UpdateUnitsAllWithoutBranchMode(phase: Phase, config: BranchConfig)
    requires forall i | 0 <= i < |config.upgrades| :: !InBranchMode(phase, config.upgrades[i])
    ensures UpdateUnits(phase, config) == config.upgrades
  {
    var f := (u: Upgrade) => RunsPerUpdate(phase, u);
    PerUpdateIsNotBranch(phase);
    assert forall i | 0 <= i < |config.upgrades| :: f(config.upgrades[i]);
    FilterKeepsAll(config.upgrades, f);
  }

  /** `config.upgrades.map(({ depName }) => depName)`, an absent name becoming the empty string as `join` renders it. */
  function DepNames(upgrades: seq<Upgrade>): (r: seq<string>)
    ensures |r| == |upgrades|
    ensures forall i | 0 <= i < |r| :: r[i] == upgrades[i].depName.GetOr("")
  {
    if |upgrades| == 0 then [] else [upgrades[0].depName.GetOr("")] + DepNames(upgrades[1..])
  }

  /**
    The synthesized unit of the branch-scoped pass: the branch's manager,
    name and file filters, the space-separated names of its dependencies,
    no package file, and the branch's own tasks only when they are in
    branch mode. The other phase's tasks are absent.
   */
  function BranchUnit(phase: Phase, config: BranchConfig): (b: Upgrade)
    requires BranchTasks(phase, config).Some?
    ensures b.manager == config.manager && b.branchName == config.branchName && b.fileFilters == config.fileFilters
    ensures b.depName == Some(Join(DepNames(config.upgrades), " "))
    ensures b.packageFile.None?
    ensures TasksOf(phase, b).Some? <==> BranchTasks(phase, config).value.executionMode == Some(BranchMode)
    ensures TasksOf(phase, b).Some? ==> TasksOf(phase, b) == BranchTasks(phase, config)
    ensures TasksOf(if phase == PreUpgrade then PostUpgrade else PreUpgrade, b).None?
  {
    var tasks := BranchTasks(phase, config);
    var own := if tasks.value.executionMode == Some(BranchMode) then tasks else None;
    Upgrade(
      manager := config.manager,
      depName := Some(Join(DepNames(config.upgrades), " ")),
      branchName := config.branchName,
      packageFile := None,
      fileFilters := config.fileFilters,
      preUpgradeTasks := if phase == PreUpgrade then own else None,
      postUpgradeTasks := if phase == PostUpgrade then own else None)
  }

  /** The branch unit has work exactly when the branch's tasks are in branch mode and list commands. */
  lemma BranchUnitHasCommandsIff(phase: Phase, config: BranchConfig)
    requires BranchTasks(phase, config).Some?
    ensures HasCommands(phase, BranchUnit(phase, config)) <==>
      BranchTasks(phase, config).value.executionMode == Some(BranchMode)
      && |BranchTasks(phase, config).value.commands.GetOr([])| > 0
  {
  }

  /** A branch with one upgrade names the branch unit after that upgrade's dependency. */
  lemma BranchUnitSingleDep(phase: Phase, config: BranchConfig)
    requires BranchTasks(phase, config).Some? && |config.upgrades| == 1
    ensures BranchUnit(phase, config).depName == Some(config.upgrades[0].depName.GetOr(""))
  {
  }

  /** Errors from the branch unit's commands name no lock file, since the unit has no package file. */
  lemma BranchUnitErrorsHaveNoLockFile(env: Env, settings: GlobalSettings, phase: Phase, config: BranchConfig,
                                       cmd: string)
    requires BranchTasks(phase, config).Some?
    ensures var run := Wire(env, settings, phase, config).gate(cmd, BranchUnit(phase, config));
      forall e | e in run.errors :: e.lockFile.None?
  {
  }

  /** The units of both passes: the update units, then the branch unit. */
  function PhaseUnits(phase: Phase, config: BranchConfig): (r: seq<Upgrade>)
    requires BranchTasks(phase, config).Some?
    ensures |r| > 0 && r[|r| - 1] == BranchUnit(phase, config)
  {
    UpdateUnits(phase, config) + [BranchUnit(phase, config)]
  }
}
