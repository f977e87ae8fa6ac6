/**
  The shared helpers of the pre- and post-upgrade phases
  (`execute-upgrade-commands.ts`): flushing pending files to the working
  tree, the allow-list gate around one configured command, and the
  reconciliation of the working tree's changes into the artifact list.
 */
module UpgradeCommands {
  import opened Lists
  import opened Types

  // ------------------------------------------------------------------
  // persistUpdatedFiles
  // ------------------------------------------------------------------

  /** The working tree's regular files and their contents: a path is a file exactly when it is a key. */
  type LocalFiles = map<Path, string>

  /** The contents carried by the last Addition for `p` in `files`, if there is one. */
  function LastAddition(files: seq<FileChange>, p: Path): Option<string>
  {
    if |files| == 0 then None
    else
      var f := files[|files| - 1];
      if f.Addition? && f.path == p then Some(f.contents) else LastAddition(files[..|files| - 1], p)
  }

  /** Looking for the last Addition from the front: the tail decides, unless it has none. */
  lemma {:induction false} LastAdditionFront(files: seq<FileChange>, p: Path)
    requires |files| > 0
    ensures LastAddition(files, p) ==
      match LastAddition(files[1..], p)
      case Some(c) => Some(c)
      case None => if files[0].Addition? && files[0].path == p then Some(files[0].contents) else None
  {
    var n := |files|;
    if n > 1 {
      var f := files[n - 1];
      assert files[1..][..n - 2] == files[..n - 1][1..];
      if !(f.Addition? && f.path == p) {
        LastAdditionFront(files[..n - 1], p);
      }
    }
  }

  lemma LastAdditionFrontAll(files: seq<FileChange>)
    requires |files| > 0
    ensures forall p :: (
      LastAddition(files, p) == match LastAddition(files[1..], p)
        case Some(c) => Some(c)
        case None => if files[0].Addition? && files[0].path == p then Some(files[0].contents) else None)
  {
    forall p {
      LastAdditionFront(files, p);
    }
  }

  /**
    Writes every Addition whose path is already a file, in list order.
    So no file appears or disappears, and each file ends with the contents
    of its last Addition, or keeps its contents if it has none.
   */
  function PersistUpdatedFiles(files: seq<FileChange>, local: LocalFiles): (r: LocalFiles)
    ensures r.Keys == local.Keys
    ensures forall p | p in local :: r[p] == LastAddition(files, p).GetOr(local[p])
  {
    if |files| == 0 then local
    else
      var f := files[0];
      var next := if f.Addition? && f.path in local then local[f.path := f.contents] else local;
      LastAdditionFrontAll(files);
      PersistUpdatedFiles(files[1..], next)
  }

  // ------------------------------------------------------------------
  // upgradeCommandExecutor
  // ------------------------------------------------------------------

  /** `allowedUpgradeCommands.some(pattern => regEx(pattern).test(cmd))`. */
  predicate IsAllowed(env: Env, allowed: seq<string>, cmd: string) {
    exists i | 0 <= i < |allowed| :: env.regexTest(allowed[i], cmd)
  }

  /** The message reported for a command that no allow-list pattern matches. */
  function NotAllowedMessage(taskType: string, cmd: string): string {
    taskType + " command '" + cmd
      + "' has not been added to the allowed list in allowedUpgradeCommands"
  }

  /**
    What one call of the command gate did: whether the template engine was
    invoked, the string handed to process execution (if any), and the
    errors it returned.
   */
  datatype CommandRun = CommandRun(rendered: bool, executed: Option<string>, errors: seq<ArtifactError>)

  /**
    Gates `cmd` on the allow-list, renders it when templating is switched
    on, and executes it. Every failure, a rendering failure included,
    becomes one error against the unit's package file.
   */
  function UpgradeCommandExecutor(
    env: Env, allowed: seq<string>, cmd: string, templating: Option<bool>,
    config: BranchConfig, upgrade: Upgrade, taskType: string): (r: CommandRun)
    ensures |r.errors| <= 1
    ensures forall e | e in r.errors :: e.lockFile == upgrade.packageFile
    ensures !IsAllowed(env, allowed, cmd) ==>
      r == CommandRun(false, None, [ArtifactError(upgrade.packageFile, env.sanitize(NotAllowedMessage(taskType, cmd)))])
    ensures allowed == [] ==> r.executed == None && |r.errors| == 1
    ensures r.rendered <==> IsAllowed(env, allowed, cmd) && templating == Some(true)
    ensures r.executed.Some? <==>
      IsAllowed(env, allowed, cmd) && (templating == Some(true)
        ==> env.compile(cmd, MergedChild(config, upgrade)).Ok?)
    ensures r.executed.Some? && templating != Some(true) ==> r.executed.value == cmd
    ensures r.executed.Some? && templating == Some(true) ==>
      env.compile(cmd, MergedChild(config, upgrade)) == Ok(r.executed.value)
    ensures r.errors == [] <==> r.executed.Some? && env.exec(r.executed.value).Ok?
    ensures IsAllowed(env, allowed, cmd) && templating == Some(true)
            && env.compile(cmd, MergedChild(config, upgrade)).Err? ==>
      r.errors == [ArtifactError(upgrade.packageFile, env.sanitize(env.compile(cmd, MergedChild(config, upgrade)).message))]
    ensures r.executed.Some? && env.exec(r.executed.value).Err? ==>
      r.errors == [ArtifactError(upgrade.packageFile, env.sanitize(env.exec(r.executed.value).message))]
  {
    if IsAllowed(env, allowed, cmd) then
      var rendered := templating == Some(true);
      var compiled := if rendered then env.compile(cmd, MergedChild(config, upgrade)) else Ok(cmd);
      match compiled
      case Err(message) =>
        CommandRun(rendered, None, [ArtifactError(upgrade.packageFile, env.sanitize(message))])
      case Ok(command) =>
        match env.exec(command)
        case Ok(_) => CommandRun(rendered, Some(command), [])
        case Err(message) =>
          CommandRun(rendered, Some(command), [ArtifactError(upgrade.packageFile, env.sanitize(message))])
    else
      CommandRun(false, None, [ArtifactError(upgrade.packageFile, env.sanitize(NotAllowedMessage(taskType, cmd)))])
  }

  // ------------------------------------------------------------------
  // updateUpdatedArtifacts
  // ------------------------------------------------------------------

  /** The paths `git status` reports as modified or not yet added, in that order. */
  function Changed(status: RepoStatus): seq<Path> {
    status.modified + status.notAdded
  }

  /** `p` matches at least one of the glob `patterns`. */
  predicate MatchesAny(env: Env, p: Path, patterns: seq<string>) {
    exists i | 0 <= i < |patterns| :: env.minimatch(p, patterns[i])
  }

  /** Matching some pattern is matching the first or matching one of the rest. */
  lemma MatchesAnyStep(env: Env, p: Path, patterns: seq<string>)
    requires |patterns| > 0
    ensures MatchesAny(env, p, patterns) <==> env.minimatch(p, patterns[0]) || MatchesAny(env, p, patterns[1..])
  {
    if MatchesAny(env, p, patterns[1..]) {
      var i :| 0 <= i < |patterns[1..]| && env.minimatch(p, patterns[1..][i]);
      assert env.minimatch(p, patterns[i + 1]);
    }
    if MatchesAny(env, p, patterns) && !env.minimatch(p, patterns[0]) {
      var i :| 0 <= i < |patterns| && env.minimatch(p, patterns[i]);
      assert patterns[1..][i - 1] == patterns[i];
    }
  }

  predicate NoDeletionOf(arts: seq<FileChange>, p: Path) {
    forall i | 0 <= i < |arts| :: !(arts[i].Deletion? && arts[i].path == p)
  }

  predicate NoAdditionOf(arts: seq<FileChange>, p: Path) {
    forall i | 0 <= i < |arts| :: !(arts[i].Addition? && arts[i].path == p)
  }

  /** `arts.find(ua => ua.path === p)`, as the index of the entry found. */
  function FindByPath(arts: seq<FileChange>, p: Path): (r: Option<nat>)
    ensures r.Some? ==> r.value < |arts| && arts[r.value].path == p
    ensures r.Some? ==> forall j | 0 <= j < r.value :: arts[j].path != p
    ensures r.None? ==> forall j | 0 <= j < |arts| :: arts[j].path != p
  {
    if |arts| == 0 then None
    else if arts[0].path == p then Some(0)
    else
      match FindByPath(arts[1..], p)
      case None => None
      case Some(i) => Some(i + 1)
  }

  function NotDeletionOf(p: Path): FileChange -> bool {
    (e: FileChange) => !(e.Deletion? && e.path == p)
  }

  function NotAdditionOf(p: Path): FileChange -> bool {
    (e: FileChange) => !(e.Addition? && e.path == p)
  }

  /**
    One matching (path, pattern) pair of the first pass: the first entry
    for `p`, when it is an Addition, gets the new contents; otherwise an
    Addition is appended. Then every Deletion of `p` is dropped.
   */
  function SaveAddition(arts: seq<FileChange>, p: Path, c: string): (r: seq<FileChange>)
    ensures Addition(p, c) in r
    ensures NoDeletionOf(r, p)
    ensures forall i | 0 <= i < |r| :: r[i] in arts || r[i] == Addition(p, c)
    ensures forall i | 0 <= i < |arts| :: arts[i].path != p ==> arts[i] in r
  {
    var found := FindByPath(arts, p);
    var upserted :=
      if found.Some? && arts[found.value].Addition? then arts[found.value := Addition(p, c)]
      else arts + [Addition(p, c)];
    assert forall i | 0 <= i < |arts| :: arts[i].path != p ==> arts[i] in upserted by {
      forall i | 0 <= i < |arts| && arts[i].path != p
        ensures arts[i] in upserted
      {
        assert upserted[i] == arts[i];
      }
    }
    assert Addition(p, c) in upserted by {
      if found.Some? && arts[found.value].Addition? {
        assert upserted[found.value] == Addition(p, c);
      } else {
        assert upserted[|arts|] == Addition(p, c);
      }
    }
    FilterMembers(upserted, NotDeletionOf(p));
    var r := Filter(upserted, NotDeletionOf(p));
    assert forall i | 0 <= i < |upserted| :: upserted[i] in arts || upserted[i] == Addition(p, c);
    r
  }

  /**
    One matching (path, pattern) pair of the second pass: a Deletion of `p`
    is appended and then every Addition of `p` is dropped. Earlier
    Deletions of `p` stay.
   */
  function RecordDeletion(arts: seq<FileChange>, p: Path): (r: seq<FileChange>)
    ensures Deletion(p) in r
    ensures NoAdditionOf(r, p)
    ensures forall i | 0 <= i < |r| :: r[i] in arts || r[i] == Deletion(p)
    ensures forall i | 0 <= i < |arts| :: NotAdditionOf(p)(arts[i]) ==> arts[i] in r
  {
    var appended := arts + [Deletion(p)];
    assert appended[|arts|] == Deletion(p);
    assert forall i | 0 <= i < |arts| :: appended[i] == arts[i];
    FilterMembers(appended, NotAdditionOf(p));
    Filter(appended, NotAdditionOf(p))
  }

  /** The inner loop of the first pass, over the patterns, for one path `p` with contents `c`. */
  function SaveMatching(env: Env, p: Path, c: string, arts: seq<FileChange>,
                        patterns: seq<string>): (r: seq<FileChange>)
    ensures !MatchesAny(env, p, patterns) ==> r == arts
    ensures MatchesAny(env, p, patterns) ==> Addition(p, c) in r && NoDeletionOf(r, p)
    ensures forall i | 0 <= i < |r| :: r[i] in arts || (r[i] == Addition(p, c) && MatchesAny(env, p, patterns))
    ensures forall i | 0 <= i < |arts| :: arts[i].path != p ==> arts[i] in r
    decreases |patterns|
  {
    if |patterns| == 0 then arts
    else
      var next := if env.minimatch(p, patterns[0]) then SaveAddition(arts, p, c) else arts;
      var r := SaveMatching(env, p, c, next, patterns[1..]);
      MatchesAnyStep(env, p, patterns);
      r
  }

  /** The first pass: every changed path against every pattern, in order. */
  function SaveChangedPaths(env: Env, read: Path -> string, filters: seq<string>, arts: seq<FileChange>,
                            paths: seq<Path>): (r: seq<FileChange>)
    ensures forall i | 0 <= i < |r| :: (r[i] in arts ||
      (r[i].Addition? && r[i].path in paths && MatchesAny(env, r[i].path, filters)
        && r[i].contents == read(r[i].path)))
    ensures forall p | p in paths && MatchesAny(env, p, filters) :: Addition(p, read(p)) in r && NoDeletionOf(r, p)
    ensures forall i | 0 <= i < |arts| ::
      !(arts[i].path in paths && MatchesAny(env, arts[i].path, filters)) ==> arts[i] in r
    decreases |paths|
  {
    if |paths| == 0 then arts
    else
      var next := SaveMatching(env, paths[0], read(paths[0]), arts, filters);
      var r := SaveChangedPaths(env, read, filters, next, paths[1..]);
      SaveStepProvenance(env, read, filters, arts, paths, next, r);
      SaveStepSaves(env, read, filters, paths, next, r);
      SaveStepKeeps(env, read, filters, arts, paths, next, r);
      r
  }

  lemma SaveStepProvenance(env: Env, read: Path -> string, filters: seq<string>, arts: seq<FileChange>,
                           paths: seq<Path>,
                           next: seq<FileChange>, r: seq<FileChange>)
    requires |paths| > 0
    requires forall i | 0 <= i < |next| ::
      next[i] in arts || (next[i] == Addition(paths[0], read(paths[0])) && MatchesAny(env, paths[0], filters))
    requires forall i | 0 <= i < |r| :: (r[i] in next ||
      (r[i].Addition? && r[i].path in paths[1..] && MatchesAny(env, r[i].path, filters)
        && r[i].contents == read(r[i].path)))
    ensures forall i | 0 <= i < |r| :: (r[i] in arts ||
      (r[i].Addition? && r[i].path in paths && MatchesAny(env, r[i].path, filters)
        && r[i].contents == read(r[i].path)))
  {
    forall i | 0 <= i < |r|
      ensures r[i] in arts ||
        (r[i].Addition? && r[i].path in paths && MatchesAny(env, r[i].path, filters)
          && r[i].contents == read(r[i].path))
    {
      if r[i] in next {
        var k :| 0 <= k < |next| && next[k] == r[i];
      } else {
        var k :| 0 <= k < |paths[1..]| && paths[1..][k] == r[i].path;
        assert paths[k + 1] == r[i].path;
      }
    }
  }

  lemma SaveStepSaves(env: Env, read: Path -> string, filters: seq<string>, paths: seq<Path>,
                      next: seq<FileChange>, r: seq<FileChange>)
    requires |paths| > 0
    requires MatchesAny(env, paths[0], filters) ==>
      Addition(paths[0], read(paths[0])) in next && NoDeletionOf(next, paths[0])
    requires forall i | 0 <= i < |r| :: (r[i] in next ||
      (r[i].Addition? && r[i].path in paths[1..] && MatchesAny(env, r[i].path, filters)
        && r[i].contents == read(r[i].path)))
    requires forall q | q in paths[1..] && MatchesAny(env, q, filters) ::
      Addition(q, read(q)) in r && NoDeletionOf(r, q)
    requires forall i | 0 <= i < |next| ::
      !(next[i].path in paths[1..] && MatchesAny(env, next[i].path, filters)) ==> next[i] in r
    ensures forall q | q in paths && MatchesAny(env, q, filters) :: Addition(q, read(q)) in r && NoDeletionOf(r, q)
  {
    var p := paths[0];
    assert forall q | q in paths :: q == p || q in paths[1..];
    if MatchesAny(env, p, filters) && p !in paths[1..] {
      var k :| 0 <= k < |next| && next[k] == Addition(p, read(p));
      assert next[k] in r;
      forall i | 0 <= i < |r|
        ensures !(r[i].Deletion? && r[i].path == p)
      {
        if r[i] in next {
          var j :| 0 <= j < |next| && next[j] == r[i];
        }
      }
    }
  }

  lemma SaveStepKeeps(env: Env, read: Path -> string, filters: seq<string>, arts: seq<FileChange>, paths: seq<Path>,
                      next: seq<FileChange>, r: seq<FileChange>)
    requires |paths| > 0
    requires !MatchesAny(env, paths[0], filters) ==> next == arts
    requires forall i | 0 <= i < |arts| :: arts[i].path != paths[0] ==> arts[i] in next
    requires forall i | 0 <= i < |next| ::
      !(next[i].path in paths[1..] && MatchesAny(env, next[i].path, filters)) ==> next[i] in r
    ensures forall i | 0 <= i < |arts| ::
      !(arts[i].path in paths && MatchesAny(env, arts[i].path, filters)) ==> arts[i] in r
  {
    forall i | 0 <= i < |arts| && !(arts[i].path in paths && MatchesAny(env, arts[i].path, filters))
      ensures arts[i] in r
    {
      assert arts[i].path != paths[0] || !MatchesAny(env, paths[0], filters);
      var k :| 0 <= k < |next| && next[k] == arts[i];
      assert arts[i].path in paths[1..] ==> arts[i].path in paths;
    }
  }

  /** The inner loop of the second pass, over the patterns, for one deleted path `p`. */
  function RemoveMatching(env: Env, p: Path, arts: seq<FileChange>, patterns: seq<string>): (r: seq<FileChange>)
    ensures !MatchesAny(env, p, patterns) ==> r == arts
    ensures MatchesAny(env, p, patterns) ==> Deletion(p) in r && NoAdditionOf(r, p)
    ensures forall i | 0 <= i < |r| :: r[i] in arts || (r[i] == Deletion(p) && MatchesAny(env, p, patterns))
    ensures forall i | 0 <= i < |arts| :: NotAdditionOf(p)(arts[i]) ==> arts[i] in r
    decreases |patterns|
  {
    if |patterns| == 0 then arts
    else
      var next := if env.minimatch(p, patterns[0]) then RecordDeletion(arts, p) else arts;
      var r := RemoveMatching(env, p, next, patterns[1..]);
      MatchesAnyStep(env, p, patterns);
      r
  }

  /** The second pass: every deleted path against every pattern, in order. */
  function RemoveDeletedPaths(env: Env, filters: seq<string>, arts: seq<FileChange>,
                              paths: seq<Path>): (r: seq<FileChange>)
    ensures forall i | 0 <= i < |r| :: (r[i] in arts ||
      (r[i].Deletion? && r[i].path in paths && MatchesAny(env, r[i].path, filters)))
    ensures forall p | p in paths && MatchesAny(env, p, filters) :: Deletion(p) in r && NoAdditionOf(r, p)
    ensures forall i | 0 <= i < |arts| ::
      !(arts[i].Addition? && arts[i].path in paths && MatchesAny(env, arts[i].path, filters)) ==> arts[i] in r
    decreases |paths|
  {
    if |paths| == 0 then arts
    else
      var next := RemoveMatching(env, paths[0], arts, filters);
      var r := RemoveDeletedPaths(env, filters, next, paths[1..]);
      RemoveStepProvenance(env, filters, arts, paths, next, r);
      RemoveStepRemoves(env, filters, paths, next, r);
      RemoveStepKeeps(env, filters, arts, paths, next, r);
      r
  }

  lemma RemoveStepProvenance(env: Env, filters: seq<string>, arts: seq<FileChange>, paths: seq<Path>,
                             next: seq<FileChange>, r: seq<FileChange>)
    requires |paths| > 0
    requires forall i | 0 <= i < |next| ::
      next[i] in arts || (next[i] == Deletion(paths[0]) && MatchesAny(env, paths[0], filters))
    requires forall i | 0 <= i < |r| ::
      (r[i] in next || (r[i].Deletion? && r[i].path in paths[1..] && MatchesAny(env, r[i].path, filters)))
    ensures forall i | 0 <= i < |r| ::
      (r[i] in arts || (r[i].Deletion? && r[i].path in paths && MatchesAny(env, r[i].path, filters)))
  {
    forall i | 0 <= i < |r|
      ensures r[i] in arts || (r[i].Deletion? && r[i].path in paths && MatchesAny(env, r[i].path, filters))
    {
      if r[i] in next {
        var k :| 0 <= k < |next| && next[k] == r[i];
      } else {
        var k :| 0 <= k < |paths[1..]| && paths[1..][k] == r[i].path;
        assert paths[k + 1] == r[i].path;
      }
    }
  }

  lemma RemoveStepRemoves(env: Env, filters: seq<string>, paths: seq<Path>, next: seq<FileChange>, r: seq<FileChange>)
    requires |paths| > 0
    requires MatchesAny(env, paths[0], filters) ==> Deletion(paths[0]) in next && NoAdditionOf(next, paths[0])
    requires forall i | 0 <= i < |r| ::
      (r[i] in next || (r[i].Deletion? && r[i].path in paths[1..] && MatchesAny(env, r[i].path, filters)))
    requires forall q | q in paths[1..] && MatchesAny(env, q, filters) :: Deletion(q) in r && NoAdditionOf(r, q)
    requires forall i | 0 <= i < |next| ::
      !(next[i].Addition? && next[i].path in paths[1..] && MatchesAny(env, next[i].path, filters)) ==> next[i] in r
    ensures forall q | q in paths && MatchesAny(env, q, filters) :: Deletion(q) in r && NoAdditionOf(r, q)
  {
    var p := paths[0];
    assert forall q | q in paths :: q == p || q in paths[1..];
    if MatchesAny(env, p, filters) && p !in paths[1..] {
      var k :| 0 <= k < |next| && next[k] == Deletion(p);
      assert next[k] in r;
      forall i | 0 <= i < |r|
        ensures !(r[i].Addition? && r[i].path == p)
      {
        if r[i] in next {
          var j :| 0 <= j < |next| && next[j] == r[i];
        }
      }
    }
  }

  lemma RemoveStepKeeps(env: Env, filters: seq<string>, arts: seq<FileChange>, paths: seq<Path>,
                        next: seq<FileChange>, r: seq<FileChange>)
    requires |paths| > 0
    requires !MatchesAny(env, paths[0], filters) ==> next == arts
    requires forall i | 0 <= i < |arts| :: NotAdditionOf(paths[0])(arts[i]) ==> arts[i] in next
    requires forall i | 0 <= i < |next| ::
      !(next[i].Addition? && next[i].path in paths[1..] && MatchesAny(env, next[i].path, filters)) ==> next[i] in r
    ensures forall i | 0 <= i < |arts| ::
      !(arts[i].Addition? && arts[i].path in paths && MatchesAny(env, arts[i].path, filters)) ==> arts[i] in r
  {
    forall i | 0 <= i < |arts|
      && !(arts[i].Addition? && arts[i].path in paths && MatchesAny(env, arts[i].path, filters))
      ensures arts[i] in r
    {
      assert NotAdditionOf(paths[0])(arts[i]) || !MatchesAny(env, paths[0], filters);
      var k :| 0 <= k < |next| && next[k] == arts[i];
      assert arts[i].path in paths[1..] ==> arts[i].path in paths;
    }
  }

  /**
    `updateUpdatedArtifacts`: folds the working tree's changes into the
    artifact list. Every entry of the result is an old entry, an Addition
    with the current contents of a changed path that matches a filter, or a
    Deletion of a deleted path that matches a filter. A matching deleted
    path ends with a Deletion and no Addition; a matching changed path that
    is not also deleted ends with an Addition of its current contents and
    no Deletion. Entries for paths nothing touched are all still there.
   */
  function UpdateUpdatedArtifacts(env: Env, filters: seq<string>, arts: seq<FileChange>,
                                  ws: Workspace): (r: seq<FileChange>)
    ensures forall i | 0 <= i < |r| :: (r[i] in arts
      || (r[i].Addition? && r[i].path in Changed(ws.status) && MatchesAny(env, r[i].path, filters)
        && r[i].contents == ws.read(r[i].path))
      || (r[i].Deletion? && r[i].path in ws.status.deleted && MatchesAny(env, r[i].path, filters)))
    ensures forall p | p in ws.status.deleted && MatchesAny(env, p, filters) :: Deletion(p) in r && NoAdditionOf(r, p)
    ensures forall p | p in Changed(ws.status) && p !in ws.status.deleted && MatchesAny(env, p, filters) ::
      Addition(p, ws.read(p)) in r && NoDeletionOf(r, p)
    ensures forall i | 0 <= i < |arts| ::
      !((arts[i].path in Changed(ws.status) || arts[i].path in ws.status.deleted)
        && MatchesAny(env, arts[i].path, filters))
      ==> arts[i] in r
    ensures filters == [] ==> r == arts
  {
    var saved := SaveChangedPaths(env, ws.read, filters, arts, Changed(ws.status));
    var r := RemoveDeletedPaths(env, filters, saved, ws.status.deleted);
    assert filters == [] ==> r == arts by {
      if filters == [] {
        assert forall p :: !MatchesAny(env, p, filters);
        NoMatchIsIdentity(env, ws.read, filters, arts, Changed(ws.status), ws.status.deleted);
      }
    }
    ReconcileProvenance(env, filters, arts, ws, saved, r);
    ReconcileSavesChanged(env, filters, ws, saved, r);
    ReconcileKeeps(env, filters, arts, ws, saved, r);
    r
  }

  lemma ReconcileProvenance(env: Env, filters: seq<string>, arts: seq<FileChange>, ws: Workspace,
                            saved: seq<FileChange>, r: seq<FileChange>)
    requires forall i | 0 <= i < |saved| :: (saved[i] in arts ||
      (saved[i].Addition? && saved[i].path in Changed(ws.status) && MatchesAny(env, saved[i].path, filters)
        && saved[i].contents == ws.read(saved[i].path)))
    requires forall i | 0 <= i < |r| :: (r[i] in saved ||
      (r[i].Deletion? && r[i].path in ws.status.deleted && MatchesAny(env, r[i].path, filters)))
    ensures forall i | 0 <= i < |r| :: (r[i] in arts
      || (r[i].Addition? && r[i].path in Changed(ws.status) && MatchesAny(env, r[i].path, filters)
        && r[i].contents == ws.read(r[i].path))
      || (r[i].Deletion? && r[i].path in ws.status.deleted && MatchesAny(env, r[i].path, filters)))
  {
    forall i | 0 <= i < |r| && r[i] in saved
      ensures r[i] in arts
        || (r[i].Addition? && r[i].path in Changed(ws.status) && MatchesAny(env, r[i].path, filters)
          && r[i].contents == ws.read(r[i].path))
    {
      var k :| 0 <= k < |saved| && saved[k] == r[i];
    }
  }

  lemma ReconcileSavesChanged(env: Env, filters: seq<string>, ws: Workspace, saved: seq<FileChange>,
                              r: seq<FileChange>)
    requires forall p | p in Changed(ws.status) && MatchesAny(env, p, filters) ::
      Addition(p, ws.read(p)) in saved && NoDeletionOf(saved, p)
    requires forall i | 0 <= i < |r| :: (r[i] in saved ||
      (r[i].Deletion? && r[i].path in ws.status.deleted && MatchesAny(env, r[i].path, filters)))
    requires forall i | 0 <= i < |saved| ::
      !(saved[i].Addition? && saved[i].path in ws.status.deleted && MatchesAny(env, saved[i].path, filters))
      ==> saved[i] in r
    ensures forall p | p in Changed(ws.status) && p !in ws.status.deleted && MatchesAny(env, p, filters) ::
      Addition(p, ws.read(p)) in r && NoDeletionOf(r, p)
  {
    forall p | p in Changed(ws.status) && p !in ws.status.deleted && MatchesAny(env, p, filters)
      ensures Addition(p, ws.read(p)) in r && NoDeletionOf(r, p)
    {
      var k :| 0 <= k < |saved| && saved[k] == Addition(p, ws.read(p));
      forall i | 0 <= i < |r|
        ensures !(r[i].Deletion? && r[i].path == p)
      {
        if r[i] in saved {
          var j :| 0 <= j < |saved| && saved[j] == r[i];
        }
      }
    }
  }

  lemma ReconcileKeeps(env: Env, filters: seq<string>, arts: seq<FileChange>, ws: Workspace, saved: seq<FileChange>,
                       r: seq<FileChange>)
    requires forall i | 0 <= i < |arts| ::
      !(arts[i].path in Changed(ws.status) && MatchesAny(env, arts[i].path, filters)) ==> arts[i] in saved
    requires forall i | 0 <= i < |saved| ::
      !(saved[i].Addition? && saved[i].path in ws.status.deleted && MatchesAny(env, saved[i].path, filters))
      ==> saved[i] in r
    ensures forall i | 0 <= i < |arts| ::
      !((arts[i].path in Changed(ws.status) || arts[i].path in ws.status.deleted)
        && MatchesAny(env, arts[i].path, filters))
      ==> arts[i] in r
  {
    forall i | 0 <= i < |arts|
      && !((arts[i].path in Changed(ws.status) || arts[i].path in ws.status.deleted)
           && MatchesAny(env, arts[i].path, filters))
      ensures arts[i] in r
    {
      var k :| 0 <= k < |saved| && saved[k] == arts[i];
    }
  }

  /** With no filter matching anything, both passes leave the list alone. */
  lemma {:induction false} NoMatchIsIdentity(env: Env, read: Path -> string, filters: seq<string>,
                                             arts: seq<FileChange>, changed: seq<Path>, deleted: seq<Path>)
    requires forall p :: !MatchesAny(env, p, filters)
    ensures RemoveDeletedPaths(env, filters, SaveChangedPaths(env, read, filters, arts, changed), deleted) == arts
    decreases |changed| + |deleted|
  {
    if |changed| > 0 {
      NoMatchIsIdentity(env, read, filters, arts, changed[1..], deleted);
    } else if |deleted| > 0 {
      NoMatchIsIdentity(env, read, filters, arts, changed, deleted[1..]);
    }
  }
}
