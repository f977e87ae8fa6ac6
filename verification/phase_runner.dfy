/**
  The per-unit loop shared by the pre- and post-upgrade phases
  (`preUpgradeCommandsExecutor` / `postUpgradeCommandsExecutor`) and the
  two passes both phases run (update scope, then branch scope).

  Besides the returned artifacts and errors, a run records the calls it
  makes to its collaborators, in order: flushing pending files, one gate
  call per command, and one reconciliation per unit. The working tree's
  state after a unit's commands is an input: `views(n)` is what the
  `n`-th status query of the run observes.
 */
module PhaseRunner {
  import opened Lists
  import opened Types
  import opened UpgradeCommands

  datatype Phase = PreUpgrade | PostUpgrade

  /** The task type named in messages. */
  function TaskType(phase: Phase): string {
    match phase
    case PreUpgrade => "Pre-upgrade"
    case PostUpgrade => "Post-upgrade"
  }

  /** The unit's task settings for the phase. */
  function TasksOf(phase: Phase, u: Upgrade): Option<UpgradeTasks> {
    match phase
    case PreUpgrade => u.preUpgradeTasks
    case PostUpgrade => u.postUpgradeTasks
  }

  /** `tasks?.commands ?? []`. */
  function CommandsOf(phase: Phase, u: Upgrade): seq<string> {
    match TasksOf(phase, u)
    case Some(tasks) => tasks.commands.GetOr([])
    case None => []
  }

  /** `tasks?.fileFilters ?? []`: the task's filters, never the unit's top-level `fileFilters`. */
  function FileFiltersOf(phase: Phase, u: Upgrade): seq<string> {
    match TasksOf(phase, u)
    case Some(tasks) => tasks.fileFilters.GetOr([])
    case None => []
  }

  predicate HasCommands(phase: Phase, u: Upgrade) {
    |CommandsOf(phase, u)| > 0
  }

  /**
    The post-upgrade phase flushes `updatedPackageFiles!`, which fails when
    the field is absent and some unit has commands; the pre-upgrade phase
    flushes `updatedPackageFiles ?? []`.
   */
  predicate CanFlush(phase: Phase, units: seq<Upgrade>, pending: Option<seq<FileChange>>) {
    phase == PostUpgrade && pending.None? ==> CommandUnitCount(phase, units) == 0
  }

  /** A collaborator call made by a phase run. */
  datatype Effect =
    | Persisted(files: seq<FileChange>)
    | Ran(command: string, run: CommandRun)
    | Reconciled(fileFilters: seq<string>, status: RepoStatus)

  /** The two collaborators a run calls, bound to everything but their per-call arguments. */
  datatype Wiring = Wiring(
    gate: (string, Upgrade) -> CommandRun,
    reconcile: (seq<string>, seq<FileChange>, Workspace) -> seq<FileChange>)

  /** `updateUpdatedArtifacts`. */
  function Reconciler(env: Env): (seq<string>, seq<FileChange>, Workspace) -> seq<FileChange> {
    (filters: seq<string>, arts: seq<FileChange>, ws: Workspace) => UpdateUpdatedArtifacts(env, filters, arts, ws)
  }

  /**
    The phase's gate (`upgradeCommandExecutor` with the global allow-list,
    the templating switch, the branch configuration and the phase's task
    type) and the reconciler.
   */
  function Wire(env: Env, settings: GlobalSettings, phase: Phase, config: BranchConfig): Wiring {
    Wiring(
      (cmd: string, u: Upgrade) => UpgradeCommandExecutor(env, settings.allowedUpgradeCommands.GetOr([]), cmd,
        settings.allowUpgradeCommandTemplating, config, u, TaskType(phase)),
      Reconciler(env))
  }

  /** One gate call per command, in the configured order; their errors are not kept. */
  function RunCommands(wiring: Wiring, cmds: seq<string>, u: Upgrade): seq<Effect> {
    if |cmds| == 0 then [] else [Ran(cmds[0], wiring.gate(cmds[0], u))] + RunCommands(wiring, cmds[1..], u)
  }

  /** The artifacts after a run of units, the calls it made, and the number of status queries so far. */
  datatype Progress = Progress(artifacts: seq<FileChange>, trace: seq<Effect>, statusReads: nat)

  /** How many of `units` have commands. */
  function CommandUnitCount(phase: Phase, units: seq<Upgrade>): nat {
    if |units| == 0 then 0
    else (if HasCommands(phase, units[0]) then 1 else 0) + CommandUnitCount(phase, units[1..])
  }

  /** All configured commands of `units`, unit by unit. */
  function AllCommands(phase: Phase, units: seq<Upgrade>): seq<string> {
    if |units| == 0 then [] else CommandsOf(phase, units[0]) + AllCommands(phase, units[1..])
  }

  /** The task filters of the units that have commands, unit by unit. */
  function CommandUnitFilters(phase: Phase, units: seq<Upgrade>): seq<seq<string>> {
    if |units| == 0 then []
    else
      (if HasCommands(phase, units[0]) then [FileFiltersOf(phase, units[0])] else [])
        + CommandUnitFilters(phase, units[1..])
  }

  /**
    The loop over units. A unit without commands is skipped. A unit with
    commands flushes the pending package files followed by the artifacts,
    runs its commands in order, then reconciles the artifacts once against
    its task filters; the result is the artifact list for the next unit.
   */
  function RunUnits(wiring: Wiring, phase: Phase, units: seq<Upgrade>, pending: Option<seq<FileChange>>,
                    arts: seq<FileChange>, views: nat -> Workspace, queried: nat): (r: Progress)
    requires CanFlush(phase, units, pending)
    ensures r.statusReads == queried + CommandUnitCount(phase, units)
    ensures CommandUnitCount(phase, units) == 0 ==> r.artifacts == arts && r.trace == []
    decreases |units|
  {
    if |units| == 0 then Progress(arts, [], queried)
    else
      var u := units[0];
      if !HasCommands(phase, u) then
        RunUnits(wiring, phase, units[1..], pending, arts, views, queried)
      else
        var ws := views(queried);
        var reconciled := wiring.reconcile(FileFiltersOf(phase, u), arts, ws);
        var rest := RunUnits(wiring, phase, units[1..], pending, reconciled, views, queried + 1);
        Progress(rest.artifacts, UnitCalls(wiring, phase, u, pending, arts, ws) + rest.trace, rest.statusReads)
  }

  /** The calls for one unit with commands: flush, its commands, reconcile. */
  function UnitCalls(wiring: Wiring, phase: Phase, u: Upgrade, pending: Option<seq<FileChange>>,
                     arts: seq<FileChange>, ws: Workspace): seq<Effect> {
    [Persisted(pending.GetOr([]) + arts)] + RunCommands(wiring, CommandsOf(phase, u), u)
      + [Reconciled(FileFiltersOf(phase, u), ws.status)]
  }

  /** What a phase executor returns. */
  datatype PhaseResult = PhaseResult(updatedArtifacts: seq<FileChange>, artifactErrors: seq<ArtifactError>)

  /** A phase executor's result, its calls, and the number of status queries so far. */
  datatype ExecutorRun = ExecutorRun(result: PhaseResult, trace: seq<Effect>, statusReads: nat)

  /**
    `preUpgradeCommandsExecutor` / `postUpgradeCommandsExecutor`: runs the
    units from the configuration's artifacts. Each command's errors are
    concatenated onto the error list and the concatenation is dropped, so
    the errors returned are a copy of the configuration's.
   */
  function PhaseCommandsExecutor(env: Env, settings: GlobalSettings, phase: Phase, units: seq<Upgrade>,
                                 config: BranchConfig, views: nat -> Workspace, queried: nat): (r: ExecutorRun)
    requires CanFlush(phase, units, config.updatedPackageFiles)
    ensures r.result.artifactErrors == config.artifactErrors.GetOr([])
    ensures r.statusReads == queried + CommandUnitCount(phase, units)
    ensures CommandUnitCount(phase, units) == 0 ==>
      r.result.updatedArtifacts == config.updatedArtifacts.GetOr([]) && r.trace == []
  {
    var p := RunUnits(Wire(env, settings, phase, config), phase, units, config.updatedPackageFiles,
      config.updatedArtifacts.GetOr([]), views, queried);
    ExecutorRun(PhaseResult(p.artifacts, config.artifactErrors.GetOr([])), p.trace, p.statusReads)
  }

  /**
    The update-scoped pass over `updateUnits`, then the branch-scoped pass
    over the single `branchUnit`, seeded with the artifacts and errors the
    first pass returned.
   */
  function RunBothPasses(env: Env, settings: GlobalSettings, phase: Phase, config: BranchConfig,
                         updateUnits: seq<Upgrade>, branchUnit: Upgrade, views: nat -> Workspace): (r: ExecutorRun)
    requires CanFlush(phase, updateUnits + [branchUnit], config.updatedPackageFiles)
    ensures r.result.artifactErrors == config.artifactErrors.GetOr([])
    ensures CanFlush(phase, updateUnits, config.updatedPackageFiles)
    ensures !HasCommands(phase, branchUnit) ==>
      r.result == PhaseCommandsExecutor(env, settings, phase, updateUnits, config, views, 0).result
  {
    CommandUnitCountAppend(phase, updateUnits, [branchUnit]);
    var first := PhaseCommandsExecutor(env, settings, phase, updateUnits, config, views, 0);
    var second := PhaseCommandsExecutor(env, settings, phase, [branchUnit], Seeded(config, first.result),
        views, first.statusReads);
    ExecutorRun(second.result, first.trace + second.trace, second.statusReads)
  }

  /** The configuration with the first pass's artifacts and errors written back. */
  function Seeded(config: BranchConfig, first: PhaseResult): BranchConfig {
    config.(updatedArtifacts := Some(first.updatedArtifacts), artifactErrors := Some(first.artifactErrors))
  }

  // ------------------------------------------------------------------
  // The order of collaborator calls
  // ------------------------------------------------------------------

  /** Where a run stands between calls: between units, after the flush, or among the commands. */
  datatype Stage = BetweenUnits | Flushed | Running

  /**
    Follows `t` from stage `s` and returns the stage reached, or `None` if
    a call comes out of turn. The accepted traces from `BetweenUnits` back
    to `BetweenUnits` are the sequences of blocks
    flush, one or more commands, reconcile.
   */
  function Walk(t: seq<Effect>, s: Stage): Option<Stage> {
    if |t| == 0 then Some(s)
    else
      match t[0]
      case Persisted(_) => if s == BetweenUnits then Walk(t[1..], Flushed) else None
      case Ran(_, _) => if s != BetweenUnits then Walk(t[1..], Running) else None
      case Reconciled(_, _) => if s == Running then Walk(t[1..], BetweenUnits) else None
  }

  predicate InUnitBlocks(t: seq<Effect>) {
    Walk(t, BetweenUnits) == Some(BetweenUnits)
  }

  /** The commands handed to the gate, in order. */
  function CommandsRun(t: seq<Effect>): seq<string> {
    if |t| == 0 then [] else (if t[0].Ran? then [t[0].command] else []) + CommandsRun(t[1..])
  }

  /** The filters of the reconciliations, in order. */
  function FiltersUsed(t: seq<Effect>): seq<seq<string>> {
    if |t| == 0 then [] else (if t[0].Reconciled? then [t[0].fileFilters] else []) + FiltersUsed(t[1..])
  }

  /** How many flushes of pending files happened. */
  function Flushes(t: seq<Effect>): nat {
    if |t| == 0 then 0 else (if t[0].Persisted? then 1 else 0) + Flushes(t[1..])
  }

  lemma {:induction false} WalkAppend(a: seq<Effect>, b: seq<Effect>, s: Stage)
    ensures Walk(a + b, s) == match Walk(a, s) case None => None case Some(s') => Walk(b, s')
  {
    if |a| > 0 {
      assert (a + b)[1..] == a[1..] + b;
      assert (a + b)[0] == a[0];
      if a[0].Persisted? && s == BetweenUnits {
        WalkAppend(a[1..], b, Flushed);
      } else if a[0].Ran? && s != BetweenUnits {
        WalkAppend(a[1..], b, Running);
      } else if a[0].Reconciled? && s == Running {
        WalkAppend(a[1..], b, BetweenUnits);
      }
    } else {
      assert a + b == b;
    }
  }

  lemma {:induction false} CommandsRunAppend(a: seq<Effect>, b: seq<Effect>)
    ensures CommandsRun(a + b) == CommandsRun(a) + CommandsRun(b)
  {
    if |a| == 0 {
      assert a + b == b;
    } else {
      assert (a + b)[1..] == a[1..] + b;
      CommandsRunAppend(a[1..], b);
    }
  }

  lemma {:induction false} FiltersUsedAppend(a: seq<Effect>, b: seq<Effect>)
    ensures FiltersUsed(a + b) == FiltersUsed(a) + FiltersUsed(b)
  {
    if |a| == 0 {
      assert a + b == b;
    } else {
      assert (a + b)[1..] == a[1..] + b;
      FiltersUsedAppend(a[1..], b);
    }
  }

  lemma {:induction false} FlushesAppend(a: seq<Effect>, b: seq<Effect>)
    ensures Flushes(a + b) == Flushes(a) + Flushes(b)
  {
    if |a| == 0 {
      assert a + b == b;
    } else {
      assert (a + b)[1..] == a[1..] + b;
      FlushesAppend(a[1..], b);
    }
  }

  /** The projections and the walk of a concatenation. */
  lemma TraceAppend(a: seq<Effect>, b: seq<Effect>, s: Stage)
    ensures Walk(a + b, s) == match Walk(a, s) case None => None case Some(s') => Walk(b, s')
    ensures CommandsRun(a + b) == CommandsRun(a) + CommandsRun(b)
    ensures FiltersUsed(a + b) == FiltersUsed(a) + FiltersUsed(b)
    ensures Flushes(a + b) == Flushes(a) + Flushes(b)
  {
    WalkAppend(a, b, s);
    CommandsRunAppend(a, b);
    FiltersUsedAppend(a, b);
    FlushesAppend(a, b);
  }

  lemma {:induction false} RunCommandsTrace(wiring: Wiring, cmds: seq<string>, u: Upgrade)
    ensures var t := RunCommands(wiring, cmds, u);
      && CommandsRun(t) == cmds && FiltersUsed(t) == [] && Flushes(t) == 0
      && (|cmds| > 0 ==> Walk(t, Flushed) == Some(Running))
  {
    if |cmds| > 0 {
      var t := RunCommands(wiring, cmds, u);
      RunCommandsTrace(wiring, cmds[1..], u);
      var tail := RunCommands(wiring, cmds[1..], u);
      assert t[1..] == tail;
      assert cmds == [cmds[0]] + cmds[1..];
      if |cmds| > 1 {
        assert Walk(tail, Running) == Walk(tail, Flushed) by {
          assert tail[0].Ran?;
        }
      }
    }
  }

  /**
    The calls of a run come in blocks, one per unit with commands: a flush,
    that unit's commands in configured order, then a reconciliation against
    that unit's task filters.
   */
  lemma {:induction false} RunUnitsTrace(wiring: Wiring, phase: Phase, units: seq<Upgrade>,
                                         pending: Option<seq<FileChange>>,
                                         arts: seq<FileChange>, views: nat -> Workspace, queried: nat)
    requires CanFlush(phase, units, pending)
    ensures var t := RunUnits(wiring, phase, units, pending, arts, views, queried).trace;
      && InUnitBlocks(t)
      && CommandsRun(t) == AllCommands(phase, units)
      && FiltersUsed(t) == CommandUnitFilters(phase, units)
      && Flushes(t) == CommandUnitCount(phase, units)
    decreases |units|
  {
    if |units| > 0 {
      var u := units[0];
      if !HasCommands(phase, u) {
        RunUnitsTrace(wiring, phase, units[1..], pending, arts, views, queried);
      } else {
        var ws := views(queried);
        var reconciled := wiring.reconcile(FileFiltersOf(phase, u), arts, ws);
        var rest := RunUnits(wiring, phase, units[1..], pending, reconciled, views, queried + 1).trace;
        var flushed := Persisted(pending.GetOr([]) + arts);
        var ran := RunCommands(wiring, CommandsOf(phase, u), u);
        var rec := Reconciled(FileFiltersOf(phase, u), ws.status);
        UnfoldCommandUnit(wiring, phase, units, pending, arts, views, queried);
        assert UnitCalls(wiring, phase, u, pending, arts, ws) == [flushed] + ran + [rec];
        RunUnitsTrace(wiring, phase, units[1..], pending, reconciled, views, queried + 1);
        RunCommandsTrace(wiring, CommandsOf(phase, u), u);
        BlockTrace(flushed, ran, rec, rest);
        assert AllCommands(phase, units) == CommandsOf(phase, u) + AllCommands(phase, units[1..]);
        assert CommandUnitFilters(phase, units) == [FileFiltersOf(phase, u)] + CommandUnitFilters(phase, units[1..]);
      }
    }
  }

  /** One unit's block of calls in front of the rest of a trace. */
  lemma BlockTrace(flushed: Effect, ran: seq<Effect>, rec: Effect, rest: seq<Effect>)
    requires flushed.Persisted? && rec.Reconciled?
    requires Walk(ran, Flushed) == Some(Running) && FiltersUsed(ran) == [] && Flushes(ran) == 0
    ensures var t := [flushed] + ran + [rec] + rest;
      && Walk(t, BetweenUnits) == Walk(rest, BetweenUnits)
      && CommandsRun(t) == CommandsRun(ran) + CommandsRun(rest)
      && FiltersUsed(t) == [rec.fileFilters] + FiltersUsed(rest)
      && Flushes(t) == 1 + Flushes(rest)
  {
    var t := [flushed] + ran + [rec] + rest;
    var tail := [rec] + rest;
    assert t == [flushed] + (ran + tail);
    assert t[1..] == ran + tail;
    assert tail[1..] == rest;
    WalkAppend(ran, tail, Flushed);
    CommandsRunAppend(ran, tail);
    FiltersUsedAppend(ran, tail);
    FlushesAppend(ran, tail);
  }

  // ------------------------------------------------------------------
  // Threading the first pass into the second
  // ------------------------------------------------------------------

  /** Running `a + b` is running `a` and then `b` from where `a` stopped. */
  lemma {:induction false} RunUnitsAppend(wiring: Wiring, phase: Phase, a: seq<Upgrade>, b: seq<Upgrade>,
                                          pending: Option<seq<FileChange>>,
                                          arts: seq<FileChange>, views: nat -> Workspace, queried: nat)
    requires CanFlush(phase, a + b, pending)
    ensures CanFlush(phase, a, pending) && CanFlush(phase, b, pending)
    ensures var first := RunUnits(wiring, phase, a, pending, arts, views, queried);
      var second := RunUnits(wiring, phase, b, pending, first.artifacts, views, first.statusReads);
      RunUnits(wiring, phase, a + b, pending, arts, views, queried)
        == Progress(second.artifacts, first.trace + second.trace, second.statusReads)
    decreases |a|
  {
    CommandUnitCountAppend(phase, a, b);
    if |a| == 0 {
      assert a + b == b;
    } else {
      assert (a + b)[1..] == a[1..] + b;
      assert (a + b)[0] == a[0];
      CommandUnitCountAppend(phase, a[1..], b);
      var u := a[0];
      if !HasCommands(phase, u) {
        RunUnitsAppend(wiring, phase, a[1..], b, pending, arts, views, queried);
      } else {
        var ws := views(queried);
        var reconciled := wiring.reconcile(FileFiltersOf(phase, u), arts, ws);
        RunUnitsAppend(wiring, phase, a[1..], b, pending, reconciled, views, queried + 1);
        AppendThroughUnit(wiring, phase, a, b, pending, arts, views, queried);
      }
    }
  }

  /**
    The loop body, seen from the end of a run: a unit without commands
    changes nothing; a unit with commands flushes the pending package files
    followed by the artifacts as the earlier units left them, runs its
    commands in order, and replaces the artifacts with one reconciliation
    against its task filters and the next status query.
   */
  lemma LastUnitStep(wiring: Wiring, phase: Phase, a: seq<Upgrade>, u: Upgrade, pending: Option<seq<FileChange>>,
                     arts: seq<FileChange>, views: nat -> Workspace, queried: nat)
    requires CanFlush(phase, a + [u], pending)
    ensures CanFlush(phase, a, pending)
    ensures var first := RunUnits(wiring, phase, a, pending, arts, views, queried);
      var whole := RunUnits(wiring, phase, a + [u], pending, arts, views, queried);
      && (!HasCommands(phase, u) ==> whole == first)
      && (HasCommands(phase, u) ==>
        && whole.artifacts == wiring.reconcile(FileFiltersOf(phase, u), first.artifacts, views(first.statusReads))
        && whole.statusReads == first.statusReads + 1
        && whole.trace == first.trace + [Persisted(pending.GetOr([]) + first.artifacts)]
          + RunCommands(wiring, CommandsOf(phase, u), u)
          + [Reconciled(FileFiltersOf(phase, u), views(first.statusReads).status)])
  {
    RunUnitsAppend(wiring, phase, a, [u], pending, arts, views, queried);
    var first := RunUnits(wiring, phase, a, pending, arts, views, queried);
    SingleUnit(wiring, phase, u, pending, first.artifacts, views, first.statusReads);
  }

  /** A run over one unit. */
  lemma SingleUnit(wiring: Wiring, phase: Phase, u: Upgrade, pending: Option<seq<FileChange>>,
                   arts: seq<FileChange>, views: nat -> Workspace, queried: nat)
    requires CanFlush(phase, [u], pending)
    ensures var r := RunUnits(wiring, phase, [u], pending, arts, views, queried);
      && (!HasCommands(phase, u) ==> r == Progress(arts, [], queried))
      && (HasCommands(phase, u) ==> r == Progress(wiring.reconcile(FileFiltersOf(phase, u), arts, views(queried)),
        UnitCalls(wiring, phase, u, pending, arts, views(queried)), queried + 1))
  {
    assert [u][1..] == [];
    if HasCommands(phase, u) {
      var block := UnitCalls(wiring, phase, u, pending, arts, views(queried));
      assert block + [] == block;
    }
  }

  /** The inductive step of `RunUnitsAppend` for a leading unit with commands. */
  lemma AppendThroughUnit(wiring: Wiring, phase: Phase, a: seq<Upgrade>, b: seq<Upgrade>,
                          pending: Option<seq<FileChange>>,
                          arts: seq<FileChange>, views: nat -> Workspace, queried: nat)
    requires |a| > 0 && HasCommands(phase, a[0]) && (a + b)[1..] == a[1..] + b && (a + b)[0] == a[0]
    requires CanFlush(phase, a + b, pending) && CanFlush(phase, a, pending) && CanFlush(phase, b, pending)
    requires CanFlush(phase, a[1..] + b, pending) && CanFlush(phase, a[1..], pending)
    requires var reconciled := wiring.reconcile(FileFiltersOf(phase, a[0]), arts, views(queried));
      var first := RunUnits(wiring, phase, a[1..], pending, reconciled, views, queried + 1);
      var second := RunUnits(wiring, phase, b, pending, first.artifacts, views, first.statusReads);
      RunUnits(wiring, phase, a[1..] + b, pending, reconciled, views, queried + 1)
        == Progress(second.artifacts, first.trace + second.trace, second.statusReads)
    ensures var first := RunUnits(wiring, phase, a, pending, arts, views, queried);
      var second := RunUnits(wiring, phase, b, pending, first.artifacts, views, first.statusReads);
      RunUnits(wiring, phase, a + b, pending, arts, views, queried)
        == Progress(second.artifacts, first.trace + second.trace, second.statusReads)
  {
    var u := a[0];
    var ws := views(queried);
    var reconciled := wiring.reconcile(FileFiltersOf(phase, u), arts, ws);
    var block := UnitCalls(wiring, phase, u, pending, arts, ws);
    var restA := RunUnits(wiring, phase, a[1..], pending, reconciled, views, queried + 1);
    var second := RunUnits(wiring, phase, b, pending, restA.artifacts, views, restA.statusReads);
    var restAB := RunUnits(wiring, phase, a[1..] + b, pending, reconciled, views, queried + 1);
    var first := RunUnits(wiring, phase, a, pending, arts, views, queried);
    var whole := RunUnits(wiring, phase, a + b, pending, arts, views, queried);
    UnfoldCommandUnit(wiring, phase, a, pending, arts, views, queried);
    UnfoldCommandUnit(wiring, phase, a + b, pending, arts, views, queried);
    PrefixBlock(block, restA, second, first, restAB, whole);
  }

  /** A block of calls in front of two runs in sequence is in front of the first of them. */
  lemma PrefixBlock(block: seq<Effect>, restA: Progress, second: Progress, first: Progress, restAB: Progress,
                    whole: Progress)
    requires first == Progress(restA.artifacts, block + restA.trace, restA.statusReads)
    requires restAB == Progress(second.artifacts, restA.trace + second.trace, second.statusReads)
    requires whole == Progress(restAB.artifacts, block + restAB.trace, restAB.statusReads)
    ensures whole == Progress(second.artifacts, first.trace + second.trace, second.statusReads)
  {
    assert block + (restA.trace + second.trace) == (block + restA.trace) + second.trace;
  }

  /** One step of `RunUnits` over a leading unit with commands. */
  lemma UnfoldCommandUnit(wiring: Wiring, phase: Phase, units: seq<Upgrade>, pending: Option<seq<FileChange>>,
                          arts: seq<FileChange>, views: nat -> Workspace, queried: nat)
    requires |units| > 0 && HasCommands(phase, units[0]) && CanFlush(phase, units, pending)
    ensures CanFlush(phase, units[1..], pending)
    ensures var rest := RunUnits(wiring, phase, units[1..], pending,
        wiring.reconcile(FileFiltersOf(phase, units[0]), arts, views(queried)), views, queried + 1);
      RunUnits(wiring, phase, units, pending, arts, views, queried)
        == Progress(rest.artifacts,
                    UnitCalls(wiring, phase, units[0], pending, arts, views(queried)) + rest.trace,
                    rest.statusReads)
  {
  }

  /**
    For the same observed working-tree states (`views`), the artifacts and
    the query count of a run are determined by the reconciler alone: the
    gate's results are dropped, and the flush and the commands reach the
    artifacts only through the working tree, whose observed states are the
    fixed input `views` here.
   */
  lemma {:induction false} RunUnitsIgnoresGate(w1: Wiring, w2: Wiring, phase: Phase, units: seq<Upgrade>,
                                               p1: Option<seq<FileChange>>, p2: Option<seq<FileChange>>,
                                               arts: seq<FileChange>, views: nat -> Workspace, queried: nat)
    requires CanFlush(phase, units, p1) && CanFlush(phase, units, p2)
    requires w1.reconcile == w2.reconcile
    ensures var r1 := RunUnits(w1, phase, units, p1, arts, views, queried);
      var r2 := RunUnits(w2, phase, units, p2, arts, views, queried);
      r1.artifacts == r2.artifacts && r1.statusReads == r2.statusReads
    decreases |units|
  {
    if |units| > 0 {
      var u := units[0];
      if !HasCommands(phase, u) {
        RunUnitsIgnoresGate(w1, w2, phase, units[1..], p1, p2, arts, views, queried);
      } else {
        var reconciled := w1.reconcile(FileFiltersOf(phase, u), arts, views(queried));
        RunUnitsIgnoresGate(w1, w2, phase, units[1..], p1, p2, reconciled, views, queried + 1);
      }
    }
  }

  /**
    Seeding the branch pass with the update pass's results makes the two
    passes one run over the update units followed by the branch unit: same
    artifacts, same errors, same commands in the same order, same
    reconciliations.
   */
  lemma TwoPassesAsOneRun(env: Env, settings: GlobalSettings, phase: Phase, config: BranchConfig,
                          updateUnits: seq<Upgrade>, branchUnit: Upgrade, views: nat -> Workspace)
    requires CanFlush(phase, updateUnits + [branchUnit], config.updatedPackageFiles)
    ensures var both := RunBothPasses(env, settings, phase, config, updateUnits, branchUnit, views);
      var one := PhaseCommandsExecutor(env, settings, phase, updateUnits + [branchUnit], config, views, 0);
      && both.result == one.result
      && both.statusReads == one.statusReads
      && CommandsRun(both.trace) == CommandsRun(one.trace) == AllCommands(phase, updateUnits + [branchUnit])
      && FiltersUsed(both.trace) == FiltersUsed(one.trace) == CommandUnitFilters(phase, updateUnits + [branchUnit])
      && InUnitBlocks(both.trace)
  {
    var units := updateUnits + [branchUnit];
    var pending := config.updatedPackageFiles;
    var arts0 := config.updatedArtifacts.GetOr([]);
    var w := Wire(env, settings, phase, config);
    RunUnitsAppend(w, phase, updateUnits, [branchUnit], pending, arts0, views, 0);
    var first := PhaseCommandsExecutor(env, settings, phase, updateUnits, config, views, 0);
    var seeded := Seeded(config, first.result);
    var w2 := Wire(env, settings, phase, seeded);
    assert w2.reconcile == w.reconcile;
    RunUnitsIgnoresGate(w, w2, phase, [branchUnit], pending, pending, first.result.updatedArtifacts, views,
        first.statusReads);
    var second := PhaseCommandsExecutor(env, settings, phase, [branchUnit], seeded, views, first.statusReads);
    RunUnitsTrace(w, phase, units, pending, arts0, views, 0);
    RunUnitsTrace(w, phase, updateUnits, pending, arts0, views, 0);
    RunUnitsTrace(w2, phase, [branchUnit], pending, first.result.updatedArtifacts, views, first.statusReads);
    TraceAppend(first.trace, second.trace, BetweenUnits);
    AllCommandsAppend(phase, updateUnits, [branchUnit]);
    CommandUnitFiltersAppend(phase, updateUnits, [branchUnit]);
  }

  lemma {:induction false} AllCommandsAppend(phase: Phase, a: seq<Upgrade>, b: seq<Upgrade>)
    ensures AllCommands(phase, a + b) == AllCommands(phase, a) + AllCommands(phase, b)
    decreases |a|
  {
    if |a| == 0 {
      assert a + b == b;
    } else {
      assert (a + b)[1..] == a[1..] + b;
      assert (a + b)[0] == a[0];
      AllCommandsAppend(phase, a[1..], b);
    }
  }

  lemma {:induction false} CommandUnitFiltersAppend(phase: Phase, a: seq<Upgrade>, b: seq<Upgrade>)
    ensures CommandUnitFilters(phase, a + b) == CommandUnitFilters(phase, a) + CommandUnitFilters(phase, b)
    decreases |a|
  {
    if |a| == 0 {
      assert a + b == b;
    } else {
      assert (a + b)[1..] == a[1..] + b;
      assert (a + b)[0] == a[0];
      CommandUnitFiltersAppend(phase, a[1..], b);
    }
  }

  lemma {:induction false} CommandUnitCountAppend(phase: Phase, a: seq<Upgrade>, b: seq<Upgrade>)
    ensures CommandUnitCount(phase, a + b) == CommandUnitCount(phase, a) + CommandUnitCount(phase, b)
    decreases |a|
  {
    if |a| == 0 {
      assert a + b == b;
    } else {
      assert (a + b)[1..] == a[1..] + b;
      assert (a + b)[0] == a[0];
      CommandUnitCountAppend(phase, a[1..], b);
    }
  }
}
