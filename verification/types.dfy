/**
  The records the upgrade-command core works on: the branch's pending file
  changes, artifact errors, the workspace status, the per-upgrade task
  settings, the branch configuration, and the external collaborators the
  core calls (regular expressions, globs, templates, process execution,
  secret sanitising), which are left uninterpreted.
 */
module Types {
  import opened Lists

  type Path = string

  /** A pending change to one file of the branch: new contents, or removal. */
  datatype FileChange = Addition(path: Path, contents: string) | Deletion(path: Path)

  /** An error reported against a lock file (absent for the synthesized branch unit). */
  datatype ArtifactError = ArtifactError(lockFile: Option<string>, stderr: string)

  /** What `git status` reports after the commands of a unit ran. */
  datatype RepoStatus = RepoStatus(modified: seq<Path>, notAdded: seq<Path>, deleted: seq<Path>)

  /** The working tree as the reconciler observes it: its status and the current file contents. */
  datatype Workspace = Workspace(status: RepoStatus, read: Path -> string)

  datatype ExecutionMode = UpdateMode | BranchMode

  /** The `preUpgradeTasks` / `postUpgradeTasks` settings of a unit. */
  datatype UpgradeTasks = UpgradeTasks(
    commands: Option<seq<string>>,
    fileFilters: Option<seq<string>>,
    executionMode: Option<ExecutionMode>)

  /** One upgrade unit (`BranchUpgradeConfig`), restricted to the fields the core reads or sets. */
  datatype Upgrade = Upgrade(
    manager: string,
    depName: Option<string>,
    branchName: string,
    packageFile: Option<string>,
    fileFilters: Option<seq<string>>,
    preUpgradeTasks: Option<UpgradeTasks>,
    postUpgradeTasks: Option<UpgradeTasks>)

  /** The branch configuration (`BranchConfig`), restricted to the fields the core reads or sets. */
  datatype BranchConfig = BranchConfig(
    manager: string,
    branchName: string,
    upgrades: seq<Upgrade>,
    updatedPackageFiles: Option<seq<FileChange>>,
    updatedArtifacts: Option<seq<FileChange>>,
    artifactErrors: Option<seq<ArtifactError>>,
    fileFilters: Option<seq<string>>,
    preUpgradeTasks: Option<UpgradeTasks>,
    postUpgradeTasks: Option<UpgradeTasks>)

  /** The two global settings the core consults. */
  datatype GlobalSettings = GlobalSettings(
    allowedUpgradeCommands: Option<seq<string>>,
    allowUpgradeCommandTemplating: Option<bool>)

  /** `mergeChildConfig(parent, child)`, kept symbolic: only the template engine looks inside it. */
  datatype TemplateContext = MergedChild(parent: BranchConfig, child: Upgrade)

  /**
    The collaborators, as uninterpreted functions:
    - `regexTest(pattern, s)`: `regEx(pattern).test(s)`, an unanchored search;
    - `minimatch(path, glob)`;
    - `compile(template, context)`: the rendered string, or the thrown error's message;
    - `exec(command)`: the process output, or the thrown error's message;
    - `sanitize(text)`: `text` with secrets masked.
   */
  datatype Env = Env(
    regexTest: (string, string) -> bool,
    minimatch: (Path, string) -> bool,
    compile: (string, TemplateContext) -> Result<string>,
    exec: string -> Result<string>,
    sanitize: string -> string)
}
