/**
 * Moving files into a folder (`moveFilesWithPrompt`), and the selection of media by
 * their sidecars' flags that feeds it (`findImages`, `findImagesAndMoveToTarget`).
 * Files already in the target folder are left out; the others go either straight into
 * the target folder (flattened) or, given an old root, into the target folder under the
 * sub-folder they had below that root. Each move passes the three-way gate. The move
 * itself is a stub in the scripts; here the moves the gate lets through are recorded.
 */
module Move {
  import opened Results
  import opened Paths
  import opened Sequences
  import opened Sidecar
  import opened Media
  import opened Gate

  /** The files below `targetDir`'s level that still need moving: those whose folder is not `targetDir`, in order. */
  function NeedsMoving(filePaths: seq<Path>, targetDir: Path): seq<Path> {
    if filePaths == [] then []
    else (if Dirname(filePaths[0]) != targetDir then [filePaths[0]] else []) + NeedsMoving(filePaths[1..], targetDir)
  }

  /**
   * `path.join(targetDir, oldDir ? path.dirname(oldFilePath.replace(oldDir, '')) : '', path.basename(oldFilePath))`:
   * an empty or missing `oldDir` flattens.
   */
  function Destination(targetDir: Path, oldDir: Option<Path>, filePath: Path): Path {
    var middle := if oldDir.Some? && oldDir.value != "" then Dirname(ReplaceFirst(filePath, oldDir.value)) else "";
    Join(Join(targetDir, middle), Basename(filePath))
  }

  /** The moves the gate is offered. */
  function MoveOps(toMove: seq<Path>, targetDir: Path, oldDir: Option<Path>): (ops: seq<Op>)
    ensures |ops| == |toMove|
  {
    seq(|toMove|, i requires 0 <= i < |toMove| => Op(toMove[i], Destination(targetDir, oldDir, toMove[i])))
  }

  /** How a move batch ends: whether the target folder had to be created, and the gate's run. */
  datatype MoveOutcome = MoveOutcome(createdTarget: bool, run: GateState)

  /**
   * `moveFilesWithPrompt`: the target folder is created when it does not exist; then every
   * file not yet in it is offered to the gate, with prompting on.
   */
  function MoveFiles(existing: set<Path>, filePaths: seq<Path>, targetDir: Path, oldDir: Option<Path>, answers: seq<string>): MoveOutcome {
    MoveOutcome(targetDir !in existing,
      Run(MoveChoices, Start(false, answers), MoveOps(NeedsMoving(filePaths, targetDir), targetDir, oldDir)))
  }

  method MoveFilesWithPrompt(existing: set<Path>, filePaths: seq<Path>, targetDir: Path, oldDir: Option<Path>, answers: seq<string>)
    returns (r: MoveOutcome)
    ensures r == MoveFiles(existing, filePaths, targetDir, oldDir, answers)
  {
    var created := targetDir !in existing;
    var toMove := NeedsMoving(filePaths, targetDir);
    ghost var ops := MoveOps(toMove, targetDir, oldDir);
    var s := Start(false, answers);
    var i := 0;
    while i < |toMove| && s.failure.None?
      invariant 0 <= i <= |toMove|
      invariant Run(MoveChoices, Start(false, answers), ops) == Run(MoveChoices, s, ops[i..])
    {
      assert ops[i..][1..] == ops[i + 1..];
      var oldFilePath := toMove[i];
      var middle := if oldDir.Some? && oldDir.value != "" then Dirname(ReplaceFirst(oldFilePath, oldDir.value)) else "";
      var newFilePath := Join(Join(targetDir, middle), Basename(oldFilePath));
      s := Ask(MoveChoices, s, Op(oldFilePath, newFilePath));
      i := i + 1;
    }
    return MoveOutcome(created, s);
  }

  // ---------------------------------------------------------------------------
  // Selecting media by their sidecars.
  // ---------------------------------------------------------------------------

  /** Why `findImages` throws: a sidecar that does not read or decode, or one outside the sidecar root. */
  datatype FindError = SidecarUnreadable(yamlPath: Path) | MatchFailed(cause: MatchError)

  /** The first loop of `findImages`: the sidecars the filter keeps, in order, or the first that does not read. */
  function Selected(records: map<Path, SidecarRecord>, sel: Selection, yamlPaths: seq<Path>): Result<seq<Path>, FindError> {
    if yamlPaths == [] then Ok([])
    else
      var y := yamlPaths[|yamlPaths| - 1];
      match Selected(records, sel, yamlPaths[..|yamlPaths| - 1])
      case Err(e) => Err(e)
      case Ok(kept) =>
        if y !in records then Err(SidecarUnreadable(y))
        else if Selects(sel, records[y]) then Ok(kept + [y])
        else Ok(kept)
  }

  method SelectSidecars(records: map<Path, SidecarRecord>, sel: Selection, yamlPaths: seq<Path>) returns (r: Result<seq<Path>, FindError>)
    ensures r == Selected(records, sel, yamlPaths)
  {
    var matching: seq<Path> := [];
    var i := 0;
    while i < |yamlPaths|
      invariant 0 <= i <= |yamlPaths|
      invariant Selected(records, sel, yamlPaths[..i]) == Ok(matching)
    {
      assert yamlPaths[..i + 1][..i] == yamlPaths[..i];
      var y := yamlPaths[i];
      if y !in records {
        SelectedStops(records, sel, yamlPaths, i + 1);
        return Err(SidecarUnreadable(y));
      }
      if Selects(sel, records[y]) {
        matching := matching + [y];
      }
      i := i + 1;
    }
    assert yamlPaths[..i] == yamlPaths;
    return Ok(matching);
  }

  /** `findImages`: the media of the sidecars the filter keeps. */
  function ImagesOf(cfg: Config, fs: Listing, records: map<Path, SidecarRecord>, sel: Selection, yamlPaths: seq<Path>): Result<seq<Path>, FindError> {
    match Selected(records, sel, yamlPaths)
    case Err(e) => Err(e)
    case Ok(kept) =>
      match ImagePathsOf(cfg, fs, kept)
      case Err(e) => Err(MatchFailed(e))
      case Ok(paths) => Ok(paths)
  }

  method FindImages(cfg: Config, fs: Listing, records: map<Path, SidecarRecord>, sel: Selection, yamlPaths: seq<Path>)
    returns (r: Result<seq<Path>, FindError>)
    ensures r == ImagesOf(cfg, fs, records, sel, yamlPaths)
  {
    var kept := SelectSidecars(records, sel, yamlPaths);
    if kept.Err? {
      return Err(kept.error);
    }
    var found := FindImagePaths(cfg, fs, kept.value);
    if found.Err? {
      return Err(MatchFailed(found.error));
    }
    return Ok(found.value);
  }

  /** `findImagesAndMoveToTarget`: the selected media, flattened into a folder of the originals root. */
  method FindImagesAndMoveToTarget(cfg: Config, fs: Listing, records: map<Path, SidecarRecord>, existing: set<Path>,
                                   yamlPaths: seq<Path>, targetFolderName: string, sel: Selection, answers: seq<string>)
    returns (r: Result<MoveOutcome, FindError>)
    ensures r == match ImagesOf(cfg, fs, records, sel, yamlPaths)
      case Err(e) => Err(e)
      case Ok(paths) => Ok(MoveFiles(existing, paths, Join(cfg.originalsRoot, targetFolderName), None, answers))
  {
    var found := FindImages(cfg, fs, records, sel, yamlPaths);
    if found.Err? {
      return Err(found.error);
    }
    var outcome := MoveFilesWithPrompt(existing, found.value, Join(cfg.originalsRoot, targetFolderName), None, answers);
    return Ok(outcome);
  }

  // ---------------------------------------------------------------------------
  // Properties.
  // ---------------------------------------------------------------------------

  /** Exactly the files whose folder is not the target are kept, in their order. */
  lemma {:induction false} NeedsMovingExactly(filePaths: seq<Path>, targetDir: Path)
    ensures forall p :: p in NeedsMoving(filePaths, targetDir) <==> p in filePaths && Dirname(p) != targetDir
    ensures IsSubsequence(NeedsMoving(filePaths, targetDir), filePaths)
  {
    if filePaths != [] {
      var rest := filePaths[1..];
      NeedsMovingExactly(rest, targetDir);
      assert filePaths == [filePaths[0]] + rest;
      if Dirname(filePaths[0]) != targetDir {
        assert NeedsMoving(filePaths, targetDir)[1..] == NeedsMoving(rest, targetDir);
      } else {
        assert NeedsMoving(filePaths, targetDir) == NeedsMoving(rest, targetDir);
        SubsequenceOfTail(NeedsMoving(rest, targetDir), filePaths);
      }
    }
  }

  /**
   * Without an old root, a file goes straight into the target folder under its own name:
   * the destination's folder is the target and its base name is the file's.
   */
  lemma FlattenDestination(targetDir: Path, oldDir: Option<Path>, filePath: Path)
    requires oldDir.None? || oldDir.value == ""
    requires targetDir != "" && CleanDir(targetDir) && FileName(Basename(filePath))
    ensures Destination(targetDir, oldDir, filePath) == Join(targetDir, Basename(filePath))
    ensures Dirname(Destination(targetDir, oldDir, filePath)) == targetDir
    ensures Basename(Destination(targetDir, oldDir, filePath)) == Basename(filePath)
  {
    var b := Basename(filePath);
    assert Join(targetDir, "") == targetDir;
    assert Destination(targetDir, oldDir, filePath) == Join(targetDir, b);
    DirnameOfJoin(targetDir, b);
    BasenameOfJoin(targetDir, b);
  }

  /**
   * Flattening is idempotent: once the files are in the target folder, running the move
   * again offers nothing and asks nothing.
   */
  lemma FlattenIsIdempotent(existing: set<Path>, targetDir: Path, filePaths: seq<Path>, answers: seq<string>)
    requires targetDir != "" && CleanDir(targetDir)
    requires forall i :: 0 <= i < |filePaths| ==> FileName(Basename(filePaths[i]))
    ensures var moved := seq(|filePaths|, i requires 0 <= i < |filePaths| => Destination(targetDir, None, filePaths[i]));
      && NeedsMoving(moved, targetDir) == []
      && MoveFiles(existing, moved, targetDir, None, answers).run == Start(false, answers)
  {
    var moved := seq(|filePaths|, i requires 0 <= i < |filePaths| => Destination(targetDir, None, filePaths[i]));
    forall i | 0 <= i < |moved| ensures Dirname(moved[i]) == targetDir {
      FlattenDestination(targetDir, None, filePaths[i]);
    }
    NothingToMove(moved, targetDir);
  }

  /** Files that are all in the target folder leave nothing to move. */
  lemma {:induction false} NothingToMove(filePaths: seq<Path>, targetDir: Path)
    requires forall i :: 0 <= i < |filePaths| ==> Dirname(filePaths[i]) == targetDir
    ensures NeedsMoving(filePaths, targetDir) == []
  {
    if filePaths != [] {
      assert forall i :: 0 <= i < |filePaths| - 1 ==> filePaths[1..][i] == filePaths[i + 1];
      NothingToMove(filePaths[1..], targetDir);
    }
  }

  /**
   * A target folder written with a trailing '/' filters nothing out: a folder as
   * `path.dirname` writes it never ends in '/', so no file counts as already in place.
   */
  lemma {:induction false} TrailingSlashTargetKeepsAll(filePaths: seq<Path>, targetDir: Path)
    requires |targetDir| >= 2 && targetDir[|targetDir| - 1] == '/'
    requires forall i :: 0 <= i < |filePaths| ==> CleanDir(Dirname(filePaths[i]))
    ensures NeedsMoving(filePaths, targetDir) == filePaths
  {
    if filePaths != [] {
      assert forall i :: 0 <= i < |filePaths| - 1 ==> filePaths[1..][i] == filePaths[i + 1];
      TrailingSlashTargetKeepsAll(filePaths[1..], targetDir);
      assert Dirname(filePaths[0]) != targetDir;
      assert filePaths == [filePaths[0]] + filePaths[1..];
    }
  }

  /**
   * With an old root, a file keeps the sub-folder it had below that root: a file
   * `oldDir + relDir + "/" + name` goes to `targetDir + relDir + "/" + name`.
   */
  lemma StructuredDestination(targetDir: Path, oldDir: Path, relDir: Path, name: Path)
    requires RootDir(targetDir) && RootDir(oldDir) && FileName(name)
    requires relDir != "" && relDir != "." && relDir[0] != '/' && relDir[|relDir| - 1] != '/'
    ensures Destination(targetDir, Some(oldDir), oldDir + relDir + "/" + name) == targetDir + relDir + "/" + name
  {
    var rest := relDir + "/" + name;
    Regroup(oldDir, relDir, name);
    DestinationBelowRoot(targetDir, oldDir, rest);
    RelativeSplit(relDir, name);
    JoinPlain(oldDir + relDir, name);
    BasenameOfJoin(oldDir + relDir, name);
    JoinOntoRoot(targetDir, relDir);
    JoinPlain(targetDir + relDir, name);
  }

  /** With an old root, a file directly in that root goes directly into the target folder. */
  lemma StructuredDestinationTop(targetDir: Path, oldDir: Path, name: Path)
    requires RootDir(targetDir) && RootDir(oldDir) && FileName(name)
    ensures Destination(targetDir, Some(oldDir), oldDir + name) == targetDir + name
  {
    PrefixReplaced(oldDir, name);
    PlainNameParts(name);
    JoinOntoRoot(oldDir, name);
    BasenameOfJoin(oldDir, name);
    JoinOntoRoot(targetDir, name);
  }

  /** With an old root, a path below it keeps the folder of what follows the root. */
  lemma DestinationBelowRoot(targetDir: Path, oldDir: Path, rest: Path)
    requires oldDir != ""
    ensures Destination(targetDir, Some(oldDir), oldDir + rest) == Join(Join(targetDir, Dirname(rest)), Basename(oldDir + rest))
  {
    PrefixReplaced(oldDir, rest);
  }

  /** A segment joined onto a root that ends in '/' is appended as it is. */
  lemma JoinOntoRoot(root: Path, b: Path)
    requires RootDir(root) && b != "" && b != "."
    ensures Join(root, b) == root + b
  {
  }

  /**
   * Moving files of a root into that same root with the root as old root (the organise
   * flow) sends every file to the path it already has.
   */
  lemma SameRootMoveKeepsPath(root: Path, relDir: Path, name: Path)
    requires RootDir(root) && FileName(name)
    requires relDir != "" && relDir != "." && relDir[0] != '/' && relDir[|relDir| - 1] != '/'
    ensures Destination(root, Some(root), root + relDir + "/" + name) == root + relDir + "/" + name
    ensures Destination(root, Some(root), root + name) == root + name
  {
    StructuredDestination(root, root, relDir, name);
    StructuredDestinationTop(root, root, name);
  }

  /**
   * An old root written with a leading `./` is not found in paths that `path.join` built
   * from it, since those lost the `./`: nothing is removed, and the whole path, root
   * included, is rebuilt below the target. Organising with the root `./R` sends
   * `R/D/N` to `./R/R/D/N`.
   */
  lemma DotRootIsDoubled(root: Path, relDir: Path, name: Path)
    requires RootDir(root) && root != "/" && FileName(name)
    requires relDir != "" && relDir != "." && relDir[|relDir| - 1] != '/'
    requires NoDotSlash(root + relDir + "/" + name)
    ensures Destination("./" + root, Some("./" + root), root + relDir + "/" + name) == ("./" + root) + (root + relDir) + "/" + name
  {
    var o, d := "./" + root, root + relDir;
    var p := root + relDir + "/" + name;
    assert p == d + "/" + name;
    assert ReplaceFirst(p, o) == p by {
      ReplaceFirstMissesDotSlash(p, o);
    }
    assert RootDir(o) by {
      DotRootIsRoot(root);
    }
    UnmatchedRootRebuilt(o, d, name);
  }

  lemma DotRootIsRoot(root: Path)
    requires RootDir(root) && root != "/"
    ensures RootDir("./" + root)
  {
    var o := "./" + root;
    assert o[|o| - 2] == root[|root| - 2];
  }

  /** When the old root is not found in a path, the path's folder is rebuilt whole below the target. */
  lemma UnmatchedRootRebuilt(targetDir: Path, d: Path, name: Path)
    requires RootDir(targetDir) && FileName(name)
    requires d != "" && d != "." && d[|d| - 1] != '/'
    requires ReplaceFirst(d + "/" + name, targetDir) == d + "/" + name
    ensures Destination(targetDir, Some(targetDir), d + "/" + name) == targetDir + d + "/" + name
  {
    RelativeSplit(d, name);
    JoinPlain(d, name);
    BasenameOfJoin(d, name);
    JoinOntoRoot(targetDir, d);
    JoinPlain(targetDir + d, name);
  }

  /** A selection run that has hit an unreadable sidecar is the outcome of the whole run. */
  lemma {:induction false} SelectedStops(records: map<Path, SidecarRecord>, sel: Selection, yamlPaths: seq<Path>, n: nat)
    requires n <= |yamlPaths| && Selected(records, sel, yamlPaths[..n]).Err?
    ensures Selected(records, sel, yamlPaths) == Selected(records, sel, yamlPaths[..n])
    decreases |yamlPaths|
  {
    if n < |yamlPaths| {
      var init := yamlPaths[..|yamlPaths| - 1];
      assert init[..n] == yamlPaths[..n];
      SelectedStops(records, sel, init, n);
    } else {
      assert yamlPaths[..n] == yamlPaths;
    }
  }

  /**
   * `findImages` throws exactly when some sidecar does not read; otherwise it keeps exactly
   * the sidecars the filter selects, in their order.
   */
  lemma {:induction false} SelectedExactly(records: map<Path, SidecarRecord>, sel: Selection, yamlPaths: seq<Path>)
    ensures Selected(records, sel, yamlPaths).Err? <==> exists i :: 0 <= i < |yamlPaths| && yamlPaths[i] !in records
    ensures Selected(records, sel, yamlPaths).Ok? ==>
      (forall y :: y in Selected(records, sel, yamlPaths).value <==> y in yamlPaths && Selects(sel, records[y]))
      && IsSubsequence(Selected(records, sel, yamlPaths).value, yamlPaths)
  {
    if yamlPaths != [] {
      var n := |yamlPaths|;
      var init := yamlPaths[..n - 1];
      var y := yamlPaths[n - 1];
      SelectedExactly(records, sel, init);
      assert yamlPaths == init + [y];
      assert forall i :: 0 <= i < n - 1 ==> init[i] == yamlPaths[i];
      var r := Selected(records, sel, yamlPaths);
      if r.Ok? {
        var kept := Selected(records, sel, init).value;
        if Selects(sel, records[y]) {
          SubsequenceSnoc(kept, init, y);
        } else {
          SubsequenceExtend(kept, init, [y]);
          assert init + [y] == yamlPaths;
        }
      }
    }
  }
}
