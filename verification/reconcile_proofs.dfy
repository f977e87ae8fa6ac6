/**
  What `updateUpdatedArtifacts` does to the entries of one path, and to
  the entries of the paths it does not touch.

  The reconciler works path by path: every step reads or rewrites only
  the entries of the path it is processing. So the entries of one path,
  taken in order (`EntriesFor`), evolve on their own, and the entries of
  untouched paths keep their contents and their relative order.
 */
module ReconcileProofs {
  import opened Lists
  import opened Types
  import opened UpgradeCommands

  /** `q` is the path `p`. */
  function IsPath(p: Path): Path -> bool {
    q => q == p
  }

  /** The entries whose path `keep` selects. */
  function Touching(keep: Path -> bool): FileChange -> bool {
    (e: FileChange) => keep(e.path)
  }

  /** The entries of `arts` for path `p`, in list order. */
  function EntriesFor(arts: seq<FileChange>, p: Path): seq<FileChange> {
    Filter(arts, Touching(IsPath(p)))
  }

  /** How many of `patterns` the path `p` matches: the inner loop's number of hits. */
  function MatchCount(env: Env, p: Path, patterns: seq<string>): nat {
    if |patterns| == 0 then 0
    else (if env.minimatch(p, patterns[0]) then 1 else 0) + MatchCount(env, p, patterns[1..])
  }

  /** How many times `p` is listed in `paths`. */
  function Occurrences(paths: seq<Path>, p: Path): nat {
    if |paths| == 0 then 0
    else (if paths[0] == p then 1 else 0) + Occurrences(paths[1..], p)
  }

  /** How many Deletions of `p` the second pass over `paths` appends: one per listing of `p` and matching pattern. */
  function NewDeletions(env: Env, filters: seq<string>, paths: seq<Path>, p: Path): nat {
    if |paths| == 0 then 0
    else (if paths[0] == p then MatchCount(env, p, filters) else 0) + NewDeletions(env, filters, paths[1..], p)
  }

  lemma {:induction false} NewDeletionsIsProduct(env: Env, filters: seq<string>, paths: seq<Path>, p: Path)
    ensures NewDeletions(env, filters, paths, p) == MatchCount(env, p, filters) * Occurrences(paths, p)
  {
    if |paths| > 0 {
      NewDeletionsIsProduct(env, filters, paths[1..], p);
    }
  }

  /** No Deletion is appended for `p` exactly when `p` is not listed or matches no filter. */
  lemma NewDeletionsZero(env: Env, filters: seq<string>, paths: seq<Path>, p: Path)
    ensures NewDeletions(env, filters, paths, p) == 0 <==> !MatchesAny(env, p, filters) || p !in paths
  {
    NewDeletionsIsProduct(env, filters, paths, p);
    MatchCountPositive(env, p, filters);
    OccurrencesPositive(paths, p);
  }

  lemma {:induction false} MatchCountPositive(env: Env, p: Path, patterns: seq<string>)
    ensures MatchCount(env, p, patterns) > 0 <==> MatchesAny(env, p, patterns)
  {
    if |patterns| > 0 {
      MatchCountPositive(env, p, patterns[1..]);
      if MatchesAny(env, p, patterns[1..]) {
        var i :| 0 <= i < |patterns[1..]| && env.minimatch(p, patterns[1..][i]);
        assert env.minimatch(p, patterns[i + 1]);
      }
      if MatchesAny(env, p, patterns) && !env.minimatch(p, patterns[0]) {
        var i :| 0 <= i < |patterns| && env.minimatch(p, patterns[i]);
        assert patterns[1..][i - 1] == patterns[i];
      }
    }
  }

  lemma {:induction false} OccurrencesPositive(paths: seq<Path>, p: Path)
    ensures Occurrences(paths, p) > 0 <==> p in paths
  {
    if |paths| > 0 {
      OccurrencesPositive(paths[1..], p);
      assert p in paths <==> paths[0] == p || p in paths[1..];
    }
  }

  // ------------------------------------------------------------------
  // Untouched paths: contents and relative order are kept
  // ------------------------------------------------------------------

  lemma SaveAdditionFrame(arts: seq<FileChange>, p: Path, c: string, keep: Path -> bool)
    requires !keep(p)
    ensures Filter(SaveAddition(arts, p, c), Touching(keep)) == Filter(arts, Touching(keep))
  {
    var found := FindByPath(arts, p);
    var upserted :=
      if found.Some? && arts[found.value].Addition? then arts[found.value := Addition(p, c)]
      else arts + [Addition(p, c)];
    if found.Some? && arts[found.value].Addition? {
      FilterUpdateDropped(arts, found.value, Addition(p, c), Touching(keep));
    } else {
      FilterAppend(arts, [Addition(p, c)], Touching(keep));
    }
    FilterOfFilter(upserted, NotDeletionOf(p), Touching(keep));
  }

  lemma RecordDeletionFrame(arts: seq<FileChange>, p: Path, keep: Path -> bool)
    requires !keep(p)
    ensures Filter(RecordDeletion(arts, p), Touching(keep)) == Filter(arts, Touching(keep))
  {
    FilterAppend(arts, [Deletion(p)], Touching(keep));
    FilterOfFilter(arts + [Deletion(p)], NotAdditionOf(p), Touching(keep));
  }

  lemma {:induction false} SaveMatchingFrame(env: Env, p: Path, c: string, arts: seq<FileChange>,
                                             patterns: seq<string>, keep: Path -> bool)
    requires !keep(p)
    ensures Filter(SaveMatching(env, p, c, arts, patterns), Touching(keep)) == Filter(arts, Touching(keep))
    decreases |patterns|
  {
    if |patterns| > 0 {
      var next := if env.minimatch(p, patterns[0]) then SaveAddition(arts, p, c) else arts;
      if env.minimatch(p, patterns[0]) {
        SaveAdditionFrame(arts, p, c, keep);
      }
      SaveMatchingFrame(env, p, c, next, patterns[1..], keep);
    }
  }

  lemma {:induction false} RemoveMatchingFrame(env: Env, p: Path, arts: seq<FileChange>, patterns: seq<string>,
                                               keep: Path -> bool)
    requires !keep(p)
    ensures Filter(RemoveMatching(env, p, arts, patterns), Touching(keep)) == Filter(arts, Touching(keep))
    decreases |patterns|
  {
    if |patterns| > 0 {
      var next := if env.minimatch(p, patterns[0]) then RecordDeletion(arts, p) else arts;
      if env.minimatch(p, patterns[0]) {
        RecordDeletionFrame(arts, p, keep);
      }
      RemoveMatchingFrame(env, p, next, patterns[1..], keep);
    }
  }

  lemma {:induction false} SaveChangedPathsFrame(env: Env, read: Path -> string, filters: seq<string>,
                                                 arts: seq<FileChange>, paths: seq<Path>, keep: Path -> bool)
    requires forall q | q in paths && MatchesAny(env, q, filters) :: !keep(q)
    ensures Filter(SaveChangedPaths(env, read, filters, arts, paths), Touching(keep)) == Filter(arts, Touching(keep))
    decreases |paths|
  {
    if |paths| > 0 {
      var p := paths[0];
      var next := SaveMatching(env, p, read(p), arts, filters);
      if MatchesAny(env, p, filters) {
        SaveMatchingFrame(env, p, read(p), arts, filters, keep);
      }
      SaveChangedPathsFrame(env, read, filters, next, paths[1..], keep);
    }
  }

  lemma {:induction false} RemoveDeletedPathsFrame(env: Env, filters: seq<string>, arts: seq<FileChange>,
                                                   paths: seq<Path>, keep: Path -> bool)
    requires forall q | q in paths && MatchesAny(env, q, filters) :: !keep(q)
    ensures Filter(RemoveDeletedPaths(env, filters, arts, paths), Touching(keep)) == Filter(arts, Touching(keep))
    decreases |paths|
  {
    if |paths| > 0 {
      var p := paths[0];
      var next := RemoveMatching(env, p, arts, filters);
      if MatchesAny(env, p, filters) {
        RemoveMatchingFrame(env, p, arts, filters, keep);
      }
      RemoveDeletedPathsFrame(env, filters, next, paths[1..], keep);
    }
  }

  /**
    The entries for paths that the status does not report, or that match no
    filter, come out unchanged and in their original relative order.
   */
  lemma UntouchedEntriesKept(env: Env, filters: seq<string>, arts: seq<FileChange>, ws: Workspace, keep: Path -> bool)
    requires forall q | (q in Changed(ws.status) || q in ws.status.deleted) && MatchesAny(env, q, filters) :: !keep(q)
    ensures Filter(UpdateUpdatedArtifacts(env, filters, arts, ws), Touching(keep)) == Filter(arts, Touching(keep))
  {
    var saved := SaveChangedPaths(env, ws.read, filters, arts, Changed(ws.status));
    SaveChangedPathsFrame(env, ws.read, filters, arts, Changed(ws.status), keep);
    RemoveDeletedPathsFrame(env, filters, saved, ws.status.deleted, keep);
  }

  // ------------------------------------------------------------------
  // The second pass: k matching patterns append k Deletions
  // ------------------------------------------------------------------

  /**
    `arts` after `n` Deletions of `p` have been recorded: the Additions of
    `p` are dropped and `n` Deletions of `p` appended. Deletions already
    there stay; with `n` zero nothing changes.
   */
  function WithDeletions(arts: seq<FileChange>, p: Path, n: nat): seq<FileChange> {
    if n == 0 then arts else Filter(arts, NotAdditionOf(p)) + Repeat(Deletion(p), n)
  }

  /** One recorded Deletion is the closed form with a count of one. */
  lemma RecordDeletionClosedForm(arts: seq<FileChange>, p: Path)
    ensures RecordDeletion(arts, p) == WithDeletions(arts, p, 1)
  {
    FilterAppend(arts, [Deletion(p)], NotAdditionOf(p));
    assert Filter([Deletion(p)], NotAdditionOf(p)) == [Deletion(p)] by {
      FilterKeepsAll([Deletion(p)], NotAdditionOf(p));
    }
    assert Repeat(Deletion(p), 1) == [Deletion(p)];
  }

  lemma DeletionsOnlyKept(p: Path, n: nat)
    ensures Filter(Repeat(Deletion(p), n), NotAdditionOf(p)) == Repeat(Deletion(p), n)
    ensures EntriesFor(Repeat(Deletion(p), n), p) == Repeat(Deletion(p), n)
  {
    FilterKeepsAll(Repeat(Deletion(p), n), NotAdditionOf(p));
    FilterKeepsAll(Repeat(Deletion(p), n), Touching(IsPath(p)));
  }

  /** Recording `a` and then `b` Deletions of `p` is recording `a + b` of them. */
  lemma DeletionsAccumulate(arts: seq<FileChange>, p: Path, a: nat, b: nat)
    ensures WithDeletions(WithDeletions(arts, p, a), p, b) == WithDeletions(arts, p, a + b)
  {
    if a > 0 && b > 0 {
      FilterAppend(Filter(arts, NotAdditionOf(p)), Repeat(Deletion(p), a), NotAdditionOf(p));
      FilterOfFilter(arts, NotAdditionOf(p), NotAdditionOf(p));
      DeletionsOnlyKept(p, a);
      RepeatAdd(Deletion(p), a, b);
    }
  }

  /**
    The inner deletion loop, in closed form: one recorded Deletion of `p`
    per matching pattern.
   */
  lemma {:induction false} RemoveMatchingClosedForm(env: Env, p: Path, arts: seq<FileChange>, patterns: seq<string>)
    ensures RemoveMatching(env, p, arts, patterns) == WithDeletions(arts, p, MatchCount(env, p, patterns))
    decreases |patterns|
  {
    if |patterns| > 0 {
      var k := MatchCount(env, p, patterns[1..]);
      if env.minimatch(p, patterns[0]) {
        var next := RecordDeletion(arts, p);
        RecordDeletionClosedForm(arts, p);
        RemoveMatchingClosedForm(env, p, next, patterns[1..]);
        DeletionsAccumulate(arts, p, 1, k);
        assert RemoveMatching(env, p, arts, patterns) == RemoveMatching(env, p, next, patterns[1..]);
      } else {
        RemoveMatchingClosedForm(env, p, arts, patterns[1..]);
      }
    }
  }

  /** Dropping the Additions of `p` commutes with selecting the entries of `p`. */
  lemma EntriesWithoutAdditions(arts: seq<FileChange>, p: Path)
    ensures EntriesFor(Filter(arts, NotAdditionOf(p)), p) == Filter(EntriesFor(arts, p), NotAdditionOf(p))
  {
    FilterCommutes(arts, NotAdditionOf(p), Touching(IsPath(p)));
  }

  /** Recording Deletions of `p` acts on the entries of `p` alone. */
  lemma EntriesWithDeletions(arts: seq<FileChange>, p: Path, n: nat)
    ensures EntriesFor(WithDeletions(arts, p, n), p) == WithDeletions(EntriesFor(arts, p), p, n)
  {
    if n > 0 {
      FilterAppend(Filter(arts, NotAdditionOf(p)), Repeat(Deletion(p), n), Touching(IsPath(p)));
      EntriesWithoutAdditions(arts, p);
      DeletionsOnlyKept(p, n);
    }
  }

  /** The entries of `p` after the inner deletion loop for a listed path `q`: untouched unless `q` is `p`. */
  lemma RemoveMatchingEntries(env: Env, q: Path, p: Path, arts: seq<FileChange>, filters: seq<string>)
    ensures EntriesFor(RemoveMatching(env, q, arts, filters), p) ==
      WithDeletions(EntriesFor(arts, p), p, if q == p then MatchCount(env, p, filters) else 0)
  {
    if q != p {
      RemoveMatchingFrame(env, q, arts, filters, IsPath(p));
    } else {
      RemoveMatchingClosedForm(env, p, arts, filters);
      EntriesWithDeletions(arts, p, MatchCount(env, p, filters));
    }
  }

  lemma RemoveDeletedPathsUnfold(env: Env, filters: seq<string>, arts: seq<FileChange>, paths: seq<Path>)
    requires |paths| > 0
    ensures RemoveDeletedPaths(env, filters, arts, paths)
      == RemoveDeletedPaths(env, filters, RemoveMatching(env, paths[0], arts, filters), paths[1..])
  {
  }

  /** The entries of `p` after the whole second pass over `paths`. */
  lemma {:induction false} RemoveDeletedPathsEntries(env: Env, filters: seq<string>, arts: seq<FileChange>,
                                                     paths: seq<Path>, p: Path)
    ensures EntriesFor(RemoveDeletedPaths(env, filters, arts, paths), p)
      == WithDeletions(EntriesFor(arts, p), p, NewDeletions(env, filters, paths, p))
    decreases |paths|
  {
    if |paths| > 0 {
      var q := paths[0];
      var next := RemoveMatching(env, q, arts, filters);
      var k := if q == p then MatchCount(env, p, filters) else 0;
      var m := NewDeletions(env, filters, paths[1..], p);
      var e := EntriesFor(arts, p);
      RemoveDeletedPathsEntries(env, filters, next, paths[1..], p);
      RemoveDeletedPathsUnfold(env, filters, arts, paths);
      RemoveMatchingEntries(env, q, p, arts, filters);
      DeletionsAccumulate(e, p, k, m);
      assert NewDeletions(env, filters, paths, p) == k + m;
      assert EntriesFor(RemoveDeletedPaths(env, filters, arts, paths), p)
        == WithDeletions(WithDeletions(e, p, k), p, m);
    }
  }

  /**
    A deleted path that is not also a matching changed path. If it matches
    `k > 0` filters it ends with its old Deletions followed by `k` new
    Deletions per listing, and no Addition; if it matches none, its entries
    are unchanged.
   */
  lemma DeletedPathEntries(env: Env, filters: seq<string>, arts: seq<FileChange>, ws: Workspace, p: Path)
    requires !(p in Changed(ws.status) && MatchesAny(env, p, filters))
    ensures var n := NewDeletions(env, filters, ws.status.deleted, p);
      && (n == 0 <==> !MatchesAny(env, p, filters) || p !in ws.status.deleted)
      && EntriesFor(UpdateUpdatedArtifacts(env, filters, arts, ws), p) == WithDeletions(EntriesFor(arts, p), p, n)
  {
    var saved := SaveChangedPaths(env, ws.read, filters, arts, Changed(ws.status));
    SaveChangedPathsFrame(env, ws.read, filters, arts, Changed(ws.status), IsPath(p));
    RemoveDeletedPathsEntries(env, filters, saved, ws.status.deleted, p);
    NewDeletionsZero(env, filters, ws.status.deleted, p);
  }

  /**
    Running the reconciler again on an unchanged status is not a no-op: a
    deleted path matching a filter, and not also changed, gains its
    Deletions a second time.
   */
  lemma RerunAddsDeletions(env: Env, filters: seq<string>, arts: seq<FileChange>, ws: Workspace, p: Path)
    requires p in ws.status.deleted && MatchesAny(env, p, filters) && p !in Changed(ws.status)
    ensures
      var once := UpdateUpdatedArtifacts(env, filters, arts, ws);
      var twice := UpdateUpdatedArtifacts(env, filters, once, ws);
      && |EntriesFor(twice, p)| == |EntriesFor(once, p)| + NewDeletions(env, filters, ws.status.deleted, p)
      && twice != once
  {
    var once := UpdateUpdatedArtifacts(env, filters, arts, ws);
    var n := NewDeletions(env, filters, ws.status.deleted, p);
    var e := EntriesFor(arts, p);
    DeletedPathEntries(env, filters, arts, ws, p);
    DeletedPathEntries(env, filters, once, ws, p);
    DeletionsAccumulate(e, p, n, n);
  }

  // ------------------------------------------------------------------
  // The first pass: one Addition with the current contents
  // ------------------------------------------------------------------

  /** The entries of `p` are the first-pass step applied to the entries of `p` alone. */
  lemma SaveAdditionEntries(arts: seq<FileChange>, p: Path, c: string)
    ensures EntriesFor(SaveAddition(arts, p, c), p) == SaveAddition(EntriesFor(arts, p), p, c)
  {
    var at := Touching(IsPath(p));
    var e := EntriesFor(arts, p);
    FilterMembers(arts, at);
    var found := FindByPath(arts, p);
    var upserted :=
      if found.Some? && arts[found.value].Addition? then arts[found.value := Addition(p, c)]
      else arts + [Addition(p, c)];
    if found.Some? {
      FilterUpdateFirst(arts, found.value, Addition(p, c), at);
      assert FindByPath(e, p) == Some(0);
      if !arts[found.value].Addition? {
        FilterAppend(arts, [Addition(p, c)], at);
      }
    } else {
      FilterAppend(arts, [Addition(p, c)], at);
    }
    assert Filter(upserted, at) == (
      if FindByPath(e, p).Some? && e[FindByPath(e, p).value].Addition?
      then e[FindByPath(e, p).value := Addition(p, c)]
      else e + [Addition(p, c)]);
    FilterCommutes(upserted, NotDeletionOf(p), at);
  }

  /** With at most one entry for `p` before, the first-pass step leaves exactly one: the new Addition. */
  lemma SaveAdditionSingle(arts: seq<FileChange>, p: Path, c: string)
    requires |EntriesFor(arts, p)| <= 1
    ensures EntriesFor(SaveAddition(arts, p, c), p) == [Addition(p, c)]
  {
    SaveAdditionEntries(arts, p, c);
    var e := EntriesFor(arts, p);
    FilterMembers(arts, Touching(IsPath(p)));
    assert forall i | 0 <= i < |e| :: e[i].path == p;
    SaveAdditionOnOwnEntries(e, p, c);
  }

  /** The first-pass step on at most one entry, of `p` itself. */
  lemma SaveAdditionOnOwnEntries(e: seq<FileChange>, p: Path, c: string)
    requires |e| <= 1 && forall i | 0 <= i < |e| :: e[i].path == p
    ensures SaveAddition(e, p, c) == [Addition(p, c)]
  {
    var a := Addition(p, c);
    var drop := NotDeletionOf(p);
    assert drop(a);
    if |e| == 0 {
      assert FindByPath(e, p).None?;
      assert e + [a] == [a];
      assert [a][1..] == [];
    } else {
      assert FindByPath(e, p) == Some(0);
      if e[0].Addition? {
        assert e[0 := a] == [a];
        assert [a][1..] == [];
      } else {
        var upserted := e + [a];
        assert upserted == [e[0], a];
        assert !drop(upserted[0]);
        assert upserted[1..] == [a];
        assert [a][1..] == [];
      }
    }
  }

  /** The only entry of `p` sits at `i` when there is at most one. */
  lemma OnlyEntry(arts: seq<FileChange>, p: Path, i: nat, j: nat)
    requires |EntriesFor(arts, p)| <= 1
    requires i < |arts| && arts[i].path == p
    requires j < |arts| && arts[j].path == p
    ensures i == j
  {
    if i < j {
      FilterKeepsTwo(arts, i, j, Touching(IsPath(p)));
    } else if j < i {
      FilterKeepsTwo(arts, j, i, Touching(IsPath(p)));
    }
  }

  /** An existing single Addition of `p` is updated where it stands. */
  lemma SaveAdditionInPlace(arts: seq<FileChange>, p: Path, c: string, i: nat)
    requires |EntriesFor(arts, p)| <= 1
    requires i < |arts| && arts[i].Addition? && arts[i].path == p
    ensures SaveAddition(arts, p, c) == arts[i := Addition(p, c)]
  {
    var found := FindByPath(arts, p);
    OnlyEntry(arts, p, i, found.value);
    var upserted := arts[i := Addition(p, c)];
    forall j | 0 <= j < |upserted|
      ensures NotDeletionOf(p)(upserted[j])
    {
      if j != i && arts[j].path == p {
        OnlyEntry(arts, p, i, j);
      }
    }
    FilterKeepsAll(upserted, NotDeletionOf(p));
  }

  /** With no Addition of `p`, a new one is appended and a Deletion of `p`, if any, is dropped. */
  lemma SaveAdditionAppends(arts: seq<FileChange>, p: Path, c: string)
    requires NoAdditionOf(arts, p)
    ensures SaveAddition(arts, p, c) == Filter(arts, NotDeletionOf(p)) + [Addition(p, c)]
  {
    FilterAppend(arts, [Addition(p, c)], NotDeletionOf(p));
  }

  /** With at most one entry for `p`, repeating the first-pass step changes nothing. */
  lemma SaveAdditionIdempotent(arts: seq<FileChange>, p: Path, c: string)
    requires |EntriesFor(arts, p)| <= 1
    ensures SaveAddition(SaveAddition(arts, p, c), p, c) == SaveAddition(arts, p, c)
  {
    var once := SaveAddition(arts, p, c);
    SaveAdditionSingle(arts, p, c);
    var i :| 0 <= i < |once| && once[i] == Addition(p, c);
    SaveAdditionInPlace(once, p, c, i);
    assert once[i := Addition(p, c)] == once;
  }

  /** With at most one entry for `p`, the inner addition loop acts as one step, however many patterns match. */
  lemma {:induction false} SaveMatchingOnce(env: Env, p: Path, c: string, arts: seq<FileChange>,
                                            patterns: seq<string>)
    requires |EntriesFor(arts, p)| <= 1
    ensures SaveMatching(env, p, c, arts, patterns)
      == if MatchesAny(env, p, patterns) then SaveAddition(arts, p, c) else arts
    decreases |patterns|
  {
    if |patterns| > 0 {
      if env.minimatch(p, patterns[0]) {
        var next := SaveAddition(arts, p, c);
        SaveAdditionSingle(arts, p, c);
        SaveMatchingOnce(env, p, c, next, patterns[1..]);
        SaveAdditionIdempotent(arts, p, c);
      } else {
        SaveMatchingOnce(env, p, c, arts, patterns[1..]);
      }
    }
  }

  /** The entries of `p` after the whole first pass, when it had at most one. */
  lemma {:induction false} SaveChangedPathsEntries(env: Env, read: Path -> string, filters: seq<string>,
                                                   arts: seq<FileChange>, paths: seq<Path>, p: Path)
    requires |EntriesFor(arts, p)| <= 1
    ensures EntriesFor(SaveChangedPaths(env, read, filters, arts, paths), p) ==
      if p in paths && MatchesAny(env, p, filters) then [Addition(p, read(p))] else EntriesFor(arts, p)
    decreases |paths|
  {
    if |paths| > 0 {
      var q := paths[0];
      var next := SaveMatching(env, q, read(q), arts, filters);
      assert p in paths <==> p == q || p in paths[1..];
      if q != p {
        SaveMatchingFrame(env, q, read(q), arts, filters, IsPath(p));
      } else {
        SaveMatchingOnce(env, p, read(p), arts, filters);
        if MatchesAny(env, p, filters) {
          SaveAdditionSingle(arts, p, read(p));
        }
      }
      SaveChangedPathsEntries(env, read, filters, next, paths[1..], p);
    }
  }

  /**
    A changed path that matches a filter and is not deleted, holding at
    most one entry before, ends with exactly one entry: an Addition with
    its current contents.
   */
  lemma ChangedPathEntries(env: Env, filters: seq<string>, arts: seq<FileChange>, ws: Workspace, p: Path)
    requires |EntriesFor(arts, p)| <= 1
    requires p in Changed(ws.status) && MatchesAny(env, p, filters) && p !in ws.status.deleted
    ensures EntriesFor(UpdateUpdatedArtifacts(env, filters, arts, ws), p) == [Addition(p, ws.read(p))]
  {
    var saved := SaveChangedPaths(env, ws.read, filters, arts, Changed(ws.status));
    SaveChangedPathsEntries(env, ws.read, filters, arts, Changed(ws.status), p);
    RemoveDeletedPathsFrame(env, filters, saved, ws.status.deleted, IsPath(p));
  }

  /**
    A matching path that is both changed and deleted: the first pass
    replaces its entries with the new Addition (dropping its Deletions),
    and the second pass then drops that Addition, so only the Deletions
    the second pass appends remain.
   */
  lemma ChangedAndDeletedEntries(env: Env, filters: seq<string>, arts: seq<FileChange>, ws: Workspace, p: Path)
    requires |EntriesFor(arts, p)| <= 1
    requires p in Changed(ws.status) && p in ws.status.deleted && MatchesAny(env, p, filters)
    ensures NewDeletions(env, filters, ws.status.deleted, p) > 0
    ensures EntriesFor(UpdateUpdatedArtifacts(env, filters, arts, ws), p)
      == Repeat(Deletion(p), NewDeletions(env, filters, ws.status.deleted, p))
  {
    var saved := SaveChangedPaths(env, ws.read, filters, arts, Changed(ws.status));
    SaveChangedPathsEntries(env, ws.read, filters, arts, Changed(ws.status), p);
    RemoveDeletedPathsEntries(env, filters, saved, ws.status.deleted, p);
    NewDeletionsZero(env, filters, ws.status.deleted, p);
    assert Filter([Addition(p, ws.read(p))], NotAdditionOf(p)) == [];
  }

  /**
    One `*.lock` filter, `a.lock` modified and `b.lock` deleted, starting
    from no artifacts: an Addition of `a.lock` then a Deletion of `b.lock`.
   */
  lemma LockFileScenario(env: Env, read: Path -> string)
    requires env.minimatch("a.lock", "*.lock") && env.minimatch("b.lock", "*.lock")
    ensures UpdateUpdatedArtifacts(env, ["*.lock"], [], Workspace(RepoStatus(["a.lock"], [], ["b.lock"]), read))
      == [Addition("a.lock", read("a.lock")), Deletion("b.lock")]
  {
    var ws := Workspace(RepoStatus(["a.lock"], [], ["b.lock"]), read);
    assert Changed(ws.status) == ["a.lock"];
    LockFileSaved(env, read);
    LockFileRemoved(env, read);
  }

  /**
    The first pass refreshes only the first entry of a path, so with two
    Additions of a modified path the older second one survives after the
    refreshed one, and it is the one a later flush writes last.
   */
  lemma StaleAdditionSurvives(env: Env, read: Path -> string)
    requires env.minimatch("a.lock", "*.lock")
    ensures var r := UpdateUpdatedArtifacts(env, ["*.lock"], [Addition("a.lock", "x"), Addition("a.lock", "y")],
                                            Workspace(RepoStatus(["a.lock"], [], []), read));
      && r == [Addition("a.lock", read("a.lock")), Addition("a.lock", "y")]
      && LastAddition(r, "a.lock") == Some("y")
  {
    var arts := [Addition("a.lock", "x"), Addition("a.lock", "y")];
    var ws := Workspace(RepoStatus(["a.lock"], [], []), read);
    assert Changed(ws.status) == ["a.lock"];
    assert FindByPath(arts, "a.lock") == Some(0);
    var r := [Addition("a.lock", read("a.lock")), Addition("a.lock", "y")];
    assert arts[0 := Addition("a.lock", read("a.lock"))] == r;
    FilterKeepsAll(r, NotDeletionOf("a.lock"));
    assert SaveAddition(arts, "a.lock", read("a.lock")) == r;
    assert SaveChangedPaths(env, read, ["*.lock"], arts, ["a.lock"]) == r;
  }

  lemma LockFileSaved(env: Env, read: Path -> string)
    requires env.minimatch("a.lock", "*.lock")
    ensures SaveChangedPaths(env, read, ["*.lock"], [], ["a.lock"]) == [Addition("a.lock", read("a.lock"))]
  {
    SaveAdditionAppends([], "a.lock", read("a.lock"));
    assert SaveAddition([], "a.lock", read("a.lock")) == [Addition("a.lock", read("a.lock"))];
  }

  lemma LockFileRemoved(env: Env, read: Path -> string)
    requires env.minimatch("b.lock", "*.lock")
    ensures RemoveDeletedPaths(env, ["*.lock"], [Addition("a.lock", read("a.lock"))], ["b.lock"])
      == [Addition("a.lock", read("a.lock")), Deletion("b.lock")]
  {
    var a := Addition("a.lock", read("a.lock"));
    assert ("a.lock" != "b.lock") by {
      assert "a.lock"[0] != "b.lock"[0];
    }
    assert [a] + [Deletion("b.lock")] == [a, Deletion("b.lock")];
    FilterKeepsAll([a, Deletion("b.lock")], NotAdditionOf("b.lock"));
  }
}
