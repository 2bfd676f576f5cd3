/**
 * The case directory on disk: creating it with its sub-folders
 * (createCaseDirectory), emptying its temp folder (clearTempFolder) and
 * restoring its module output folder (checkSubFolders).
 */
module CaseFolders {
  import opened Wrappers
  import opened CaseNames
  import opened Collaborators
  import opened CaseErrors

  function Child(dir: string, folder: string): string {
    dir + Separator + folder
  }

  /** The folders created inside a new case directory, in creation order. */
  function Subfolders(caseDir: string): seq<string> {
    [Child(caseDir, ExportFolder), Child(caseDir, LogFolder), Child(caseDir, TempFolder), Child(caseDir, CacheFolder)]
  }

  /** Case.getModulesOutputDirAbsPath. */
  function ModulesOutputDir(caseDir: string): string {
    Child(caseDir, ModulesOutputFolder)
  }

  function Elements(paths: seq<string>): set<string> {
    set p | p in paths
  }

  /** Every directory a successful createCaseDirectory leaves behind. */
  function CaseFolderSet(caseDir: string): set<string> {
    {caseDir} + Elements(Subfolders(caseDir)) + {ModulesOutputDir(caseDir)}
  }

  /** A directory can be made at `p`: nothing is there and creation there does not fail. */
  predicate Creatable(d: Disk, broken: set<string>, p: string) {
    p !in Entries(d) && p !in broken
  }

  /** A chain of mkdir calls joined by `&&`: it stops at the first one that fails. */
  function MakeDirs(d: Disk, broken: set<string>, paths: seq<string>): (Disk, bool)
    decreases |paths|
  {
    if paths == [] then (d, true)
    else
      var (d', ok) := MakeDir(d, broken, paths[0]);
      if ok then MakeDirs(d', broken, paths[1..]) else (d', false)
  }

  /**
   * What createCaseDirectory does to the disk and how it ends. An existing
   * root that is a file, or that cannot be read or cannot be written (both
   * kinds are in `locked`), is refused before anything is made; every later
   * failure is reported under the generic message, with the step that failed
   * as its cause.
   */
  function DirectoryPlan(d: Disk, broken: set<string>, locked: set<string>, caseDir: string): (Outcome<CaseError>, Disk) {
    if caseDir in d.files then (Fail(ExistsNotDir(caseDir)), d)
    else if caseDir in d.dirs && caseDir in locked then (Fail(CannotReadWrite(caseDir)), d)
    else
      var (d1, rootMade) := MakeDir(d, broken, caseDir);
      if !rootMade then (Fail(DirectoryFailed(caseDir, RootNotCreated)), d1)
      else
        var (d2, subMade) := MakeDirs(d1, broken, Subfolders(caseDir));
        if !subMade then (Fail(DirectoryFailed(caseDir, SubfoldersNotCreated)), d2)
        else
          var (d3, modMade) := MakeDir(d2, broken, ModulesOutputDir(caseDir));
          if !modMade then (Fail(DirectoryFailed(caseDir, ModulesOutputNotCreated(ModulesOutputDir(caseDir)))), d3)
          else (Pass, d3)
  }

  /** Case.createCaseDirectory. */
  method CreateCaseDirectory(fs: FileSystem, caseDir: string) returns (r: Outcome<CaseError>)
    modifies fs
    ensures (r, fs.disk) == DirectoryPlan(old(fs.disk), fs.broken, fs.Locked(), caseDir)
  {
    if caseDir in fs.disk.files {
      return Fail(ExistsNotDir(caseDir));
    } else if caseDir in fs.disk.dirs && caseDir in fs.Locked() {
      return Fail(CannotReadWrite(caseDir));
    }
    var result := fs.Mkdir(caseDir);
    if !result {
      return Fail(DirectoryFailed(caseDir, RootNotCreated));
    }
    ghost var d1 := fs.disk;
    var sub := Subfolders(caseDir);
    result := fs.Mkdir(sub[0]);
    if result {
      ghost var d2 := fs.disk;
      result := fs.Mkdir(sub[1]);
      if result {
        ghost var d3 := fs.disk;
        result := fs.Mkdir(sub[2]);
        if result {
          ghost var d4 := fs.disk;
          result := fs.Mkdir(sub[3]);
          assert (fs.disk, result) == MakeDirs(d4, fs.broken, sub[3..]) by {
            assert sub[3..][1..] == [];
          }
        }
        assert (fs.disk, result) == MakeDirs(d3, fs.broken, sub[2..]) by {
          assert sub[2..][1..] == sub[3..];
        }
      }
      assert (fs.disk, result) == MakeDirs(d2, fs.broken, sub[1..]) by {
        assert sub[1..][1..] == sub[2..];
      }
    }
    if !result {
      return Fail(DirectoryFailed(caseDir, SubfoldersNotCreated));
    }
    var modulesOutDir := ModulesOutputDir(caseDir);
    result := fs.Mkdir(modulesOutDir);
    if !result {
      return Fail(DirectoryFailed(caseDir, ModulesOutputNotCreated(modulesOutDir)));
    }
    return Pass;
  }

  /** The case folders are pairwise different paths: their last names all differ in length. */
  lemma FoldersDistinct(caseDir: string)
    ensures forall i, j :: 0 <= i < j < 4 ==> Subfolders(caseDir)[i] != Subfolders(caseDir)[j]
    ensures ModulesOutputDir(caseDir) !in Subfolders(caseDir)
    ensures caseDir !in Subfolders(caseDir) && caseDir != ModulesOutputDir(caseDir)
  {
    var s := Subfolders(caseDir);
    assert |s[0]| == |caseDir| + 7 && |s[1]| == |caseDir| + 4 && |s[2]| == |caseDir| + 5 && |s[3]| == |caseDir| + 6;
    assert |ModulesOutputDir(caseDir)| == |caseDir| + 13;
  }

  /** A chain of mkdirs over distinct paths succeeds exactly when each path is creatable, and then adds them all. */
  lemma {:induction false} MakeDirsEffect(d: Disk, broken: set<string>, paths: seq<string>)
    requires forall i, j :: 0 <= i < j < |paths| ==> paths[i] != paths[j]
    decreases |paths|
    ensures MakeDirs(d, broken, paths).1 <==> forall p :: p in paths ==> Creatable(d, broken, p)
    ensures MakeDirs(d, broken, paths).1 ==> MakeDirs(d, broken, paths).0 == Disk(d.dirs + Elements(paths), d.files)
    ensures MakeDirs(d, broken, paths).0.files == d.files
    ensures d.dirs <= MakeDirs(d, broken, paths).0.dirs <= d.dirs + Elements(paths)
  {
    if paths != [] {
      var (d', ok) := MakeDir(d, broken, paths[0]);
      if ok {
        MakeDirsEffect(d', broken, paths[1..]);
        assert forall p :: p in paths[1..] ==> (Creatable(d', broken, p) <==> Creatable(d, broken, p)) by {
          forall p | p in paths[1..] ensures p != paths[0] {
            var k :| 0 <= k < |paths[1..]| && paths[1..][k] == p;
            assert paths[k + 1] == p;
          }
        }
        assert forall p :: p in paths <==> p == paths[0] || p in paths[1..] by {
          assert paths == [paths[0]] + paths[1..];
        }
        assert Elements(paths) == {paths[0]} + Elements(paths[1..]);
        assert Creatable(d, broken, paths[0]);
        assert MakeDirs(d, broken, paths) == MakeDirs(d', broken, paths[1..]);
      } else {
        assert !Creatable(d, broken, paths[0]);
        assert MakeDirs(d, broken, paths) == (d', false);
      }
    }
  }

  /** createCaseDirectory succeeds exactly when the root and all five folders can be made, and then makes exactly them. */
  lemma DirectoryPlanSucceeds(d: Disk, broken: set<string>, locked: set<string>, caseDir: string)
    ensures var (r, d') := DirectoryPlan(d, broken, locked, caseDir);
            (r.Pass? <==> forall p :: p in CaseFolderSet(caseDir) ==> Creatable(d, broken, p))
            && (r.Pass? ==> d' == Disk(d.dirs + CaseFolderSet(caseDir), d.files))
  {
    FoldersDistinct(caseDir);
    var sub := Subfolders(caseDir);
    var modDir := ModulesOutputDir(caseDir);
    if Creatable(d, broken, caseDir) {
      var d1 := Disk(d.dirs + {caseDir}, d.files);
      assert MakeDir(d, broken, caseDir) == (d1, true);
      MakeDirsEffect(d1, broken, sub);
      assert forall p :: p in sub ==> (Creatable(d1, broken, p) <==> Creatable(d, broken, p));
      var (d2, subMade) := MakeDirs(d1, broken, sub);
      if subMade {
        assert Creatable(d2, broken, modDir) <==> Creatable(d, broken, modDir);
      } else {
        var p :| p in sub && !Creatable(d, broken, p);
        assert p in CaseFolderSet(caseDir);
      }
    } else {
      assert caseDir in CaseFolderSet(caseDir);
    }
  }

  /** A root that already exists is always refused: as a file, as a locked directory, or because mkdirs reports false. */
  lemma ExistingRootFails(d: Disk, broken: set<string>, locked: set<string>, caseDir: string)
    requires caseDir in Entries(d)
    ensures DirectoryPlan(d, broken, locked, caseDir).0
              == if caseDir in d.files then Fail(ExistsNotDir(caseDir))
                 else if caseDir in locked then Fail(CannotReadWrite(caseDir))
                 else Fail(DirectoryFailed(caseDir, RootNotCreated))
    ensures DirectoryPlan(d, broken, locked, caseDir).1 == d
  {
  }

  /** A failure leaves every directory made before it in place, and nothing is ever removed or made outside the case folders. */
  lemma DirectoryPlanOnlyAdds(d: Disk, broken: set<string>, locked: set<string>, caseDir: string)
    ensures DirectoryPlan(d, broken, locked, caseDir).1.files == d.files
    ensures d.dirs <= DirectoryPlan(d, broken, locked, caseDir).1.dirs <= d.dirs + CaseFolderSet(caseDir)
    ensures var r := DirectoryPlan(d, broken, locked, caseDir).0;
            r.Fail? ==> r.error.dir == caseDir
  {
    FoldersDistinct(caseDir);
    var sub := Subfolders(caseDir);
    if Creatable(d, broken, caseDir) {
      MakeDirsEffect(Disk(d.dirs + {caseDir}, d.files), broken, sub);
    }
  }

  /** `p` is an entry listed directly in `dir` (File.listFiles): below it, with no further separator. */
  predicate IsChild(p: string, dir: string) {
    StartsWith(p, dir + Separator) && forall k :: |dir + Separator| <= k < |p| ==> p[k] !in Separator
  }

  /** Of two entries listed in the same directory, the shorter is never above anything below the longer. */
  lemma ShorterChildApart(p: string, short: string, long: string, dir: string)
    requires IsChild(short, dir) && IsChild(long, dir) && |short| < |long|
    ensures !(Under(p, short) && Under(p, long))
  {
    assert Under(p, short) && |short| < |p| ==> p[|short|] == '/';
    assert Under(p, long) ==> long[|short|] == p[|short|];
  }

  /** Two entries listed in the same directory are never one below the other. */
  lemma ChildrenApart(p: string, c1: string, c2: string, dir: string)
    requires IsChild(c1, dir) && IsChild(c2, dir)
    requires Under(p, c1) && Under(p, c2)
    ensures c1 == c2
  {
    if |c1| < |c2| {
      ShorterChildApart(p, c1, c2, dir);
    } else if |c2| < |c1| {
      ShorterChildApart(p, c2, c1, dir);
    } else {
      assert c1 == p[..|c1|] == c2;
    }
  }

  function Listing(d: Disk, dir: string): set<string> {
    set p | p in Entries(d) && IsChild(p, dir)
  }

  /**
   * Removed once the entries in `listed` have been processed: everything a
   * recursive delete of a listed directory removes, and each listed plain file
   * that can be deleted.
   */
  predicate Swept(d: Disk, undeletable: set<string>, listed: set<string>, p: string) {
    ((exists c :: c in listed && c in d.dirs && Under(p, c)) && !Pinned(d, undeletable, p))
    || (p in listed && p !in d.dirs && p in d.files && p !in undeletable)
  }

  function SweepOf(d: Disk, undeletable: set<string>, listed: set<string>): Disk {
    var gone := set p | p in Entries(d) && Swept(d, undeletable, listed, p);
    Disk(d.dirs - gone, d.files - gone)
  }

  /** What Case.clearTempFolder leaves: the temp folder itself stays, what it lists is deleted where possible. */
  function ClearedTemp(d: Disk, undeletable: set<string>, dir: string): Disk {
    if dir in d.dirs then SweepOf(d, undeletable, Listing(d, dir)) else d
  }

  /** An entry below an unprocessed listed entry is exactly as it was. */
  lemma UntouchedBelow(d0: Disk, undeletable: set<string>, dir: string, done: set<string>, c: string, p: string)
    requires done <= Listing(d0, dir) && c in Listing(d0, dir) && c !in done
    requires Under(p, c)
    ensures !Swept(d0, undeletable, done, p)
  {
    if exists c' :: c' in done && c' in d0.dirs && Under(p, c') {
      var c' :| c' in done && c' in d0.dirs && Under(p, c');
      ChildrenApart(p, c, c', dir);
    }
    if p in done {
      ChildrenApart(p, c, p, dir);
    }
  }

  lemma PinnedBelow(d0: Disk, undeletable: set<string>, dir: string, done: set<string>, c: string, p: string)
    requires done <= Listing(d0, dir) && c in Listing(d0, dir) && c !in done
    requires Under(p, c)
    ensures Pinned(SweepOf(d0, undeletable, done), undeletable, p) <==> Pinned(d0, undeletable, p)
  {
    var d := SweepOf(d0, undeletable, done);
    if Pinned(d0, undeletable, p) {
      var q :| q in undeletable && q in Entries(d0) && Under(q, p);
      UnderTransitive(q, p, c);
      UntouchedBelow(d0, undeletable, dir, done, c, q);
      assert q in Entries(d);
    }
  }

  /** Processing one more listed entry takes the sweep one step further. */
  lemma SweepStep(d0: Disk, undeletable: set<string>, dir: string, done: set<string>, c: string)
    requires done <= Listing(d0, dir) && c in Listing(d0, dir) && c !in done
    ensures var d := SweepOf(d0, undeletable, done);
            (c in d.dirs <==> c in d0.dirs) && (c in d.files <==> c in d0.files)
    ensures var d := SweepOf(d0, undeletable, done);
            c in d.dirs ==> RemoveTree(d, undeletable, c) == SweepOf(d0, undeletable, done + {c})
    ensures var d := SweepOf(d0, undeletable, done);
            c !in d.dirs ==>
              (if c in d.files && c !in undeletable then Disk(d.dirs, d.files - {c}) else d)
                == SweepOf(d0, undeletable, done + {c})
  {
    var d := SweepOf(d0, undeletable, done);
    var d' := SweepOf(d0, undeletable, done + {c});
    UntouchedBelow(d0, undeletable, dir, done, c, c);
    if c in d.dirs {
      var r := RemoveTree(d, undeletable, c);
      forall p
        ensures (p in r.dirs <==> p in d'.dirs) && (p in r.files <==> p in d'.files)
      {
        if Under(p, c) {
          UntouchedBelow(d0, undeletable, dir, done, c, p);
          PinnedBelow(d0, undeletable, dir, done, c, p);
        } else {
          assert Swept(d0, undeletable, done + {c}, p) <==> Swept(d0, undeletable, done, p);
        }
      }
      assert r.dirs == d'.dirs && r.files == d'.files;
    } else {
      forall p
        ensures (p in d.dirs <==> p in d'.dirs)
      {
        assert Swept(d0, undeletable, done + {c}, p) ==> Swept(d0, undeletable, done, p) || p == c;
      }
      forall p | p != c
        ensures (p in d.files <==> p in d'.files)
      {
        assert Swept(d0, undeletable, done + {c}, p) <==> Swept(d0, undeletable, done, p);
      }
    }
  }

  /**
   * File.listFiles yields null for a directory that cannot be read; the
   * source then dereferences the null array and fails.
   */
  predicate TempListable(d: Disk, unreadable: set<string>, dir: string) {
    dir !in d.dirs || dir !in unreadable
  }

  /**
   * Case.clearTempFolder: each entry the temp folder lists is deleted,
   * recursively for directories. `listed` is false when the folder exists
   * but cannot be listed: the source fails there and nothing is deleted.
   */
  method ClearTempFolder(fs: FileSystem, dir: string) returns (listed: bool)
    modifies fs
    ensures listed == TempListable(old(fs.disk), fs.unreadable, dir)
    ensures fs.disk == if listed then ClearedTemp(old(fs.disk), fs.undeletable, dir) else old(fs.disk)
  {
    listed := TempListable(fs.disk, fs.unreadable, dir);
    if dir in fs.disk.dirs && listed {
      ghost var d0 := fs.disk;
      var files := Listing(fs.disk, dir);
      ghost var done: set<string> := {};
      while files != {}
        invariant files <= Listing(d0, dir) && done == Listing(d0, dir) - files
        invariant fs.disk == SweepOf(d0, fs.undeletable, done)
        decreases |files|
      {
        var file :| file in files;
        SweepStep(d0, fs.undeletable, dir, done, file);
        if file in fs.disk.dirs {
          var removed := fs.DeleteDir(file);
        } else {
          var removed := fs.DeleteFile(file);
        }
        files := files - {file};
        done := done + {file};
      }
      assert done == Listing(d0, dir);
    }
  }

  /** Nothing below `dir` is undeletable. */
  predicate NothingPinnedBelow(undeletable: set<string>, dir: string) {
    forall q :: q in undeletable ==> !StartsWith(q, dir + Separator)
  }

  lemma UnderChain(q: string, p: string, dir: string)
    requires StartsWith(p, dir + Separator)
    ensures Under(q, p) ==> StartsWith(q, dir + Separator)
  {
    if Under(q, p) {
      UnderTransitive(q, p, dir);
    }
  }

  lemma BelowChild(p: string, c: string, dir: string)
    requires IsChild(c, dir) && Under(p, c)
    ensures StartsWith(p, dir + Separator)
  {
    UnderTransitive(p, c, dir);
  }

  /**
   * Clearing the temp folder removes nothing outside it and adds nothing, keeps
   * the folder itself, and when nothing inside it is undeletable leaves no
   * listed entry and nothing below a listed directory.
   */
  lemma ClearedTempEffect(d: Disk, undeletable: set<string>, dir: string)
    ensures var r := ClearedTemp(d, undeletable, dir);
            r.dirs <= d.dirs && r.files <= d.files
    ensures var r := ClearedTemp(d, undeletable, dir);
            forall p :: !StartsWith(p, dir + Separator) ==> (p in r.dirs <==> p in d.dirs) && (p in r.files <==> p in d.files)
    ensures var r := ClearedTemp(d, undeletable, dir);
            dir in d.dirs && NothingPinnedBelow(undeletable, dir) ==>
              forall c :: c in Listing(d, dir) ==> c !in Entries(r) && (c in d.dirs ==> forall p :: Under(p, c) ==> p !in Entries(r))
  {
    var r := ClearedTemp(d, undeletable, dir);
    if dir in d.dirs {
      var listed := Listing(d, dir);
      forall p | !StartsWith(p, dir + Separator)
        ensures !Swept(d, undeletable, listed, p)
      {
        if c :| c in listed && c in d.dirs && Under(p, c) {
          BelowChild(p, c, dir);
        }
      }
      if NothingPinnedBelow(undeletable, dir) {
        forall p | (exists c :: c in listed && Under(p, c))
          ensures !Pinned(d, undeletable, p)
        {
          var c :| c in listed && Under(p, c);
          BelowChild(p, c, dir);
          forall q | q in undeletable
            ensures !Under(q, p)
          {
            UnderChain(q, p, dir);
          }
        }
        forall c | c in listed
          ensures c !in Entries(r)
        {
          assert Under(c, c);
        }
      }
    }
  }

  /** Case.checkSubFolders: recreates the module output folder when it is missing, ignoring a failure. */
  method CheckSubFolders(fs: FileSystem, caseDir: string)
    modifies fs
    ensures fs.disk == MakeDir(old(fs.disk), fs.broken, ModulesOutputDir(caseDir)).0
  {
    var modulesOutputDir := ModulesOutputDir(caseDir);
    if modulesOutputDir !in fs.disk.dirs && modulesOutputDir !in fs.disk.files {
      var made := fs.Mkdir(modulesOutputDir);
    }
  }

  /** Case.create's first step: the case directory is made only when nothing is at its path. */
  function PreparedDirectory(d: Disk, broken: set<string>, locked: set<string>, caseDir: string): (Outcome<CaseError>, Disk) {
    if caseDir in Entries(d) then (Pass, d) else DirectoryPlan(d, broken, locked, caseDir)
  }

  /** The disk after a case becomes current: its temp folder cleared, then its module output folder restored. */
  function ArrivalDisk(d: Disk, undeletable: set<string>, broken: set<string>, caseDir: string): Disk {
    MakeDir(ClearedTemp(d, undeletable, Child(caseDir, TempFolder)), broken, ModulesOutputDir(caseDir)).0
  }
}
