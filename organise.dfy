/**
 * `organiseMedia`: the sidecars of visible media (neither private nor archived) whose
 * folder below the sidecar root is not the year/month folder their time asks for. A
 * sidecar that does not read throws and ends the scan.
 */
module Organise {
  import opened Results
  import opened Paths
  import opened Sequences
  import opened Sidecar
  import opened Dates
  import opened Media

  /** The folder of a sidecar below the sidecar root: the root's first occurrence removed, then the folder part. */
  function FolderBelow(sidecarRoot: Path, yamlPath: Path): Path {
    Dirname(ReplaceFirst(yamlPath, sidecarRoot))
  }

  /** Private and archived media are passed over. */
  predicate Hidden(r: SidecarRecord) {
    r.isPrivate || r.deletedAt.Some?
  }

  /** A visible medium whose sidecar is not in the folder its time asks for. */
  predicate Misplaced(sidecarRoot: Path, yamlPath: Path, r: SidecarRecord) {
    !Hidden(r) && FolderBelow(sidecarRoot, yamlPath) != PathShouldBe(r.takenAt)
  }

  /** The scan ends at the first sidecar that does not read. */
  datatype OrganiseError = SidecarUnreadable(yamlPath: Path)

  /** The scan over the sidecars, in order. */
  function Relevant(cfg: Config, records: map<Path, SidecarRecord>, yamlPaths: seq<Path>): Result<seq<Path>, OrganiseError> {
    if yamlPaths == [] then Ok([])
    else
      var y := yamlPaths[|yamlPaths| - 1];
      match Relevant(cfg, records, yamlPaths[..|yamlPaths| - 1])
      case Err(e) => Err(e)
      case Ok(kept) =>
        if y !in records then Err(SidecarUnreadable(y))
        else if Misplaced(cfg.sidecarRoot, y, records[y]) then Ok(kept + [y])
        else Ok(kept)
  }

  method OrganiseMedia(cfg: Config, records: map<Path, SidecarRecord>, yamlPaths: seq<Path>) returns (r: Result<seq<Path>, OrganiseError>)
    ensures r == Relevant(cfg, records, yamlPaths)
  {
    var relevant: seq<Path> := [];
    var i := 0;
    while i < |yamlPaths|
      invariant 0 <= i <= |yamlPaths|
      invariant Relevant(cfg, records, yamlPaths[..i]) == Ok(relevant)
    {
      assert yamlPaths[..i + 1][..i] == yamlPaths[..i];
      var y := yamlPaths[i];
      if y !in records {
        RelevantStops(cfg, records, yamlPaths, i + 1);
        return Err(SidecarUnreadable(y));
      }
      var sidecar := records[y];
      if sidecar.isPrivate || sidecar.deletedAt.Some? {
        i := i + 1;
        continue;
      }
      var pathShouldBe := Join(YearText(sidecar.takenAt), MonthText(sidecar.takenAt));
      var fileDirWithoutSidecar := Dirname(ReplaceFirst(y, cfg.sidecarRoot));
      if fileDirWithoutSidecar != pathShouldBe {
        relevant := relevant + [y];
      }
      i := i + 1;
    }
    assert yamlPaths[..i] == yamlPaths;
    return Ok(relevant);
  }

  // ---------------------------------------------------------------------------
  // Properties.
  // ---------------------------------------------------------------------------

  /** Once a prefix of the sidecars fails to read, the scan fails with the same error. */
  lemma {:induction false} RelevantStops(cfg: Config, records: map<Path, SidecarRecord>, yamlPaths: seq<Path>, n: nat)
    requires n <= |yamlPaths| && Relevant(cfg, records, yamlPaths[..n]).Err?
    ensures Relevant(cfg, records, yamlPaths) == Relevant(cfg, records, yamlPaths[..n])
    decreases |yamlPaths|
  {
    if n < |yamlPaths| {
      var init := yamlPaths[..|yamlPaths| - 1];
      assert init[..n] == yamlPaths[..n];
      RelevantStops(cfg, records, init, n);
    } else {
      assert yamlPaths[..n] == yamlPaths;
    }
  }

  /**
   * The scan throws exactly when some sidecar does not read; otherwise it returns exactly
   * the misplaced sidecars of visible media, in their order.
   */
  lemma {:induction false} RelevantExactly(cfg: Config, records: map<Path, SidecarRecord>, yamlPaths: seq<Path>)
    ensures Relevant(cfg, records, yamlPaths).Err? <==> exists i :: 0 <= i < |yamlPaths| && yamlPaths[i] !in records
    ensures Relevant(cfg, records, yamlPaths).Ok? ==>
      (forall y :: y in Relevant(cfg, records, yamlPaths).value <==> y in yamlPaths && Misplaced(cfg.sidecarRoot, y, records[y]))
      && IsSubsequence(Relevant(cfg, records, yamlPaths).value, yamlPaths)
  {
    if yamlPaths != [] {
      var n := |yamlPaths|;
      var init := yamlPaths[..n - 1];
      var y := yamlPaths[n - 1];
      RelevantExactly(cfg, records, init);
      assert yamlPaths == init + [y];
      assert forall i :: 0 <= i < n - 1 ==> init[i] == yamlPaths[i];
      var r := Relevant(cfg, records, yamlPaths);
      if r.Ok? {
        var kept := Relevant(cfg, records, init).value;
        if Misplaced(cfg.sidecarRoot, y, records[y]) {
          SubsequenceSnoc(kept, init, y);
        } else {
          SubsequenceExtend(kept, init, [y]);
          assert init + [y] == yamlPaths;
        }
      }
    }
  }

  /**
   * A sidecar kept in a folder below the sidecar root is flagged exactly when its medium
   * is visible and the folder is not the one its time asks for.
   */
  lemma MisplacedIff(sidecarRoot: Path, folder: Path, name: Path, r: SidecarRecord)
    requires FileName(name) && folder != "" && folder != "." && folder[|folder| - 1] != '/'
    ensures Misplaced(sidecarRoot, sidecarRoot + folder + "/" + name, r) <==> !Hidden(r) && folder != PathShouldBe(r.takenAt)
  {
    Regroup(sidecarRoot, folder, name);
    PrefixReplaced(sidecarRoot, folder + "/" + name);
    RelativeSplit(folder, name);
  }

  /** A sidecar already in its year/month folder is never flagged. */
  lemma FiledSidecarStays(sidecarRoot: Path, name: Path, r: SidecarRecord)
    requires FileName(name)
    ensures !Misplaced(sidecarRoot, sidecarRoot + PathShouldBe(r.takenAt) + "/" + name, r)
  {
    var f := PathShouldBe(r.takenAt);
    PathShouldBeIsTwoLevels(r.takenAt);
    var m := MonthText(r.takenAt);
    assert f[|f| - 1] == m[|m| - 1];
    assert m[|m| - 1] in m;
    MisplacedIff(sidecarRoot, f, name, r);
  }

  /**
   * The sidecar of a visible medium kept directly in the sidecar root, or in a folder of
   * one level (such as `example/`), is always flagged: the folder a time asks for has two.
   */
  lemma ShallowSidecarIsFlagged(sidecarRoot: Path, folder: Path, name: Path, r: SidecarRecord)
    requires FileName(name) && !Hidden(r)
    requires folder != "" && folder != "." && '/' !in folder
    ensures Misplaced(sidecarRoot, sidecarRoot + name, r)
    ensures Misplaced(sidecarRoot, sidecarRoot + folder + "/" + name, r)
  {
    PathShouldBeIsTwoLevels(r.takenAt);
    var f := PathShouldBe(r.takenAt);
    assert f[|YearText(r.takenAt)|] == '/';
    assert '/' in f;
    PrefixReplaced(sidecarRoot, name);
    PlainNameParts(name);
    assert folder[|folder| - 1] in folder;
    MisplacedIff(sidecarRoot, folder, name, r);
  }
}
