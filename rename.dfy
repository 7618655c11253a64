/**
 * Renaming stacks to PhotoPrism's canonical name (`renameMediaFilesWithPrompt` and
 * `renameFileWithPrompt`): every media file of a sidecar's stack is renamed to
 * `yyyyMMdd_HHmmss_` of the capture time followed by the checksum of the stack's primary
 * file in upper-case hex, keeping its folder and extension. The plan is built for all
 * sidecars first; a sidecar without media ends the whole operation before anything is
 * renamed. The renames then pass the three-way gate.
 */
module Rename {
  import opened Results
  import opened Paths
  import opened Numbers
  import opened Sidecar
  import opened Dates
  import opened Media
  import opened Primary
  import opened Gate

  /**
   * What the files hold, as far as the renaming reads them: the decoded record of every
   * sidecar that reads and decodes, and the CRC32C of every media file that reads.
   */
  datatype Store = Store(records: map<Path, SidecarRecord>, checksums: map<Path, nat>)

  /** Why the operation throws before its prompts. */
  datatype RenameError =
    | MatchFailed(cause: MatchError)
    | SidecarUnreadable(yamlPath: Path)
    | NoPrimary(yamlPath: Path)
    | MediaUnreadable(mediaPath: Path)

  /** A planned rename: the media file and the name, without extension, it should get. */
  datatype Proposal = Proposal(mediaPath: Path, target: string)

  /** What the planning loop ends with: `return false` on a sidecar without media, or the proposals. */
  datatype Plan = Orphaned | Proposed(proposals: seq<Proposal>)

  /** `dateString + hash`: the canonical name of a stack. */
  function TargetName(t: Option<DateTime>, crc: nat): string {
    DatePrefix(t) + ChecksumHex(crc)
  }

  /** `path.join(path.dirname(filePath), newName + path.extname(filePath))`. */
  function NewPath(filePath: Path, newName: string): Path {
    Join(Dirname(filePath), newName + Extname(filePath))
  }

  /** A stack member as the planning loop compares it: its path and its name without extension. */
  datatype Member = Member(path: Path, stem: string)

  function Members(stack: seq<Path>): (ms: seq<Member>)
    ensures |ms| == |stack|
  {
    seq(|stack|, i requires 0 <= i < |stack| => Member(stack[i], SidecarBase(stack[i])))
  }

  /** A proposal for every member whose name without extension is not yet the target, in stack order. */
  function Mismatched(ms: seq<Member>, target: string): seq<Proposal> {
    if ms == [] then []
    else
      var m := ms[|ms| - 1];
      Mismatched(ms[..|ms| - 1], target) + (if m.stem != target then [Proposal(m.path, target)] else [])
  }

  /** The inner loop of the planning: one proposal per member whose name differs from the target. */
  method ProposeRenames(stack: seq<Path>, target: string) returns (ps: seq<Proposal>)
    ensures ps == Mismatched(Members(stack), target)
  {
    ghost var ms := Members(stack);
    ps := [];
    var i := 0;
    while i < |stack|
      invariant 0 <= i <= |stack|
      invariant ps == Mismatched(ms[..i], target)
    {
      assert ms[..i + 1][..i] == ms[..i];
      var current := RemoveExtension(Basename(stack[i]));
      assert ms[i] == Member(stack[i], current);
      if current != target {
        ps := ps + [Proposal(stack[i], target)];
      }
      i := i + 1;
    }
    assert ms[..i] == ms;
  }

  /**
   * One turn of the planning loop: the sidecar's stack (or the error `findMediaPath`
   * throws); nothing (`return false`) when the stack is empty; otherwise the record is
   * read, then the primary file, and the mismatched members are proposed.
   */
  function PlanOne(cfg: Config, fs: Listing, store: Store, yamlPath: Path): Result<Option<seq<Proposal>>, RenameError> {
    match MediaPathsOf(cfg, fs, yamlPath)
    case Err(e) => Err(MatchFailed(e))
    case Ok(stack) =>
      if stack == [] then Ok(None)
      else
        var primary := Select(stack);
        if yamlPath !in store.records then Err(SidecarUnreadable(yamlPath))
        else if primary.None? then Err(NoPrimary(yamlPath))
        else if primary.value !in store.checksums then Err(MediaUnreadable(primary.value))
        else
          var target := TargetName(store.records[yamlPath].takenAt, store.checksums[primary.value]);
          Ok(Some(Mismatched(Members(stack), target)))
  }

  method PlanFor(cfg: Config, fs: Listing, store: Store, yamlPath: Path) returns (r: Result<Option<seq<Proposal>>, RenameError>)
    ensures r == PlanOne(cfg, fs, store, yamlPath)
  {
    var found := FindMediaPath(cfg, fs, yamlPath);
    if found.Err? {
      return Err(MatchFailed(found.error));
    }
    var stack := found.value;
    if |stack| == 0 {
      return Ok(None);
    }
    var primary := FindPrimaryImage(stack);
    if yamlPath !in store.records {
      return Err(SidecarUnreadable(yamlPath));
    }
    var sidecar := store.records[yamlPath];
    if primary.None? {
      return Err(NoPrimary(yamlPath));
    }
    if primary.value !in store.checksums {
      return Err(MediaUnreadable(primary.value));
    }
    var target := DatePrefix(sidecar.takenAt) + ChecksumHex(store.checksums[primary.value]);
    var ps := ProposeRenames(stack, target);
    return Ok(Some(ps));
  }

  /** What one turn of the planning loop yields. */
  type Step = Result<Option<seq<Proposal>>, RenameError>

  /** The outcome of the planning loop over the turns' results: it stops at the first error or sidecar without media. */
  function Gather(steps: seq<Step>): Result<Plan, RenameError> {
    if steps == [] then Ok(Proposed([]))
    else
      match Gather(steps[..|steps| - 1])
      case Err(e) => Err(e)
      case Ok(Orphaned) => Ok(Orphaned)
      case Ok(Proposed(ps)) =>
        match steps[|steps| - 1]
        case Err(e) => Err(e)
        case Ok(None) => Ok(Orphaned)
        case Ok(Some(more)) => Ok(Proposed(ps + more))
  }

  function Steps(cfg: Config, fs: Listing, store: Store, yamlPaths: seq<Path>): (steps: seq<Step>)
    ensures |steps| == |yamlPaths|
  {
    seq(|yamlPaths|, i requires 0 <= i < |yamlPaths| => PlanOne(cfg, fs, store, yamlPaths[i]))
  }

  /** The planning loop of `renameMediaFilesWithPrompt`. */
  function PlanOf(cfg: Config, fs: Listing, store: Store, yamlPaths: seq<Path>): Result<Plan, RenameError> {
    Gather(Steps(cfg, fs, store, yamlPaths))
  }

  method PlanRenames(cfg: Config, fs: Listing, store: Store, yamlPaths: seq<Path>) returns (r: Result<Plan, RenameError>)
    ensures r == PlanOf(cfg, fs, store, yamlPaths)
  {
    ghost var steps := Steps(cfg, fs, store, yamlPaths);
    var proposals: seq<Proposal> := [];
    var i := 0;
    while i < |yamlPaths|
      invariant 0 <= i <= |yamlPaths|
      invariant Gather(steps[..i]) == Ok(Proposed(proposals))
    {
      assert steps[..i + 1][..i] == steps[..i];
      var one := PlanFor(cfg, fs, store, yamlPaths[i]);
      assert steps[i] == one;
      if one.Err? {
        GatherStops(steps, i + 1);
        return Err(one.error);
      }
      if one.value.None? {
        GatherStops(steps, i + 1);
        return Ok(Orphaned);
      }
      proposals := proposals + one.value.value;
      i := i + 1;
    }
    assert steps[..i] == steps;
    return Ok(Proposed(proposals));
  }

  /** The renames the gate is offered for a plan. */
  function RenameOps(ps: seq<Proposal>): (ops: seq<Op>)
    ensures |ops| == |ps|
  {
    seq(|ps|, i requires 0 <= i < |ps| => Op(ps[i].mediaPath, NewPath(ps[i].mediaPath, ps[i].target)))
  }

  /** How the operation ends when nothing throws before the prompts: `false`, or the gate's run over the proposals. */
  datatype RenameOutcome = ReturnedFalse | Renamed(run: GateState)

  /** `renameMediaFilesWithPrompt`: the plan, then the gate over it with prompting on. */
  function RenameMediaFiles(cfg: Config, fs: Listing, store: Store, yamlPaths: seq<Path>, answers: seq<string>): Result<RenameOutcome, RenameError> {
    match PlanOf(cfg, fs, store, yamlPaths)
    case Err(e) => Err(e)
    case Ok(Orphaned) => Ok(ReturnedFalse)
    case Ok(Proposed(ps)) => Ok(Renamed(Run(RenameChoices, Start(false, answers), RenameOps(ps))))
  }

  /** `renameFileWithPrompt`: offers one rename to the gate. */
  method RenameFileWithPrompt(s: GateState, filePath: Path, newName: string) returns (t: GateState)
    requires s.failure.None?
    ensures t == Offer(RenameChoices, s, Op(filePath, NewPath(filePath, newName)))
  {
    var fileDir := Dirname(filePath);
    var extension := Extname(filePath);
    var newFilePath := Join(fileDir, newName + extension);
    t := Ask(RenameChoices, s, Op(filePath, newFilePath));
  }

  method RenameMediaFilesWithPrompt(cfg: Config, fs: Listing, store: Store, yamlPaths: seq<Path>, answers: seq<string>)
    returns (r: Result<RenameOutcome, RenameError>)
    ensures r == RenameMediaFiles(cfg, fs, store, yamlPaths, answers)
  {
    var plan := PlanRenames(cfg, fs, store, yamlPaths);
    if plan.Err? {
      return Err(plan.error);
    }
    if plan.value.Orphaned? {
      return Ok(ReturnedFalse);
    }
    var s := ConfirmRenames(plan.value.proposals, answers);
    return Ok(Renamed(s));
  }

  /** The second loop: each proposal offered through `renameFileWithPrompt`, with `shouldPrompt` threaded through. */
  method ConfirmRenames(ps: seq<Proposal>, answers: seq<string>) returns (s: GateState)
    ensures s == Run(RenameChoices, Start(false, answers), RenameOps(ps))
  {
    ghost var ops := RenameOps(ps);
    s := Start(false, answers);
    var i := 0;
    while i < |ps| && s.failure.None?
      invariant 0 <= i <= |ps|
      invariant Run(RenameChoices, Start(false, answers), ops) == Run(RenameChoices, s, ops[i..])
    {
      assert ops[i..][1..] == ops[i + 1..];
      s := RenameFileWithPrompt(s, ps[i].mediaPath, ps[i].target);
      i := i + 1;
    }
  }

  // ---------------------------------------------------------------------------
  // Properties.
  // ---------------------------------------------------------------------------

  /** A planning run that has stopped (error or sidecar without media) is the outcome of the whole run. */
  lemma {:induction false} GatherStops(steps: seq<Step>, n: nat)
    requires n <= |steps|
    requires !(Gather(steps[..n]).Ok? && Gather(steps[..n]).value.Proposed?)
    ensures Gather(steps) == Gather(steps[..n])
    decreases |steps|
  {
    if n < |steps| {
      var init := steps[..|steps| - 1];
      assert init[..n] == steps[..n];
      GatherStops(init, n);
    } else {
      assert steps[..n] == steps;
    }
  }

  /**
   * The plan gets to the prompts exactly when every turn plans without error and finds
   * media; so one sidecar without media means no rename at all.
   */
  lemma {:induction false} GatherProposedIff(steps: seq<Step>)
    ensures (Gather(steps).Ok? && Gather(steps).value.Proposed?) <==>
      forall i :: 0 <= i < |steps| ==> steps[i].Ok? && steps[i].value.Some?
  {
    if steps != [] {
      var n := |steps|;
      var init := steps[..n - 1];
      GatherProposedIff(init);
      assert forall i :: 0 <= i < n - 1 ==> init[i] == steps[i];
    }
  }

  /** The plan reaches the prompts exactly when every sidecar plans without error and has media. */
  lemma ProposedIffAllPlanned(cfg: Config, fs: Listing, store: Store, yamlPaths: seq<Path>)
    ensures (PlanOf(cfg, fs, store, yamlPaths).Ok? && PlanOf(cfg, fs, store, yamlPaths).value.Proposed?) <==>
      forall i :: 0 <= i < |yamlPaths| ==>
        PlanOne(cfg, fs, store, yamlPaths[i]).Ok? && PlanOne(cfg, fs, store, yamlPaths[i]).value.Some?
  {
    var steps := Steps(cfg, fs, store, yamlPaths);
    GatherProposedIff(steps);
    assert forall i :: 0 <= i < |yamlPaths| ==> steps[i] == PlanOne(cfg, fs, store, yamlPaths[i]);
  }

  /** A sidecar whose stack is empty makes the operation return `false` or throw; no rename is offered. */
  lemma OrphanMeansNoRename(cfg: Config, fs: Listing, store: Store, yamlPaths: seq<Path>, answers: seq<string>, k: nat)
    requires k < |yamlPaths| && MediaPathsOf(cfg, fs, yamlPaths[k]) == Ok([])
    ensures !RenameMediaFiles(cfg, fs, store, yamlPaths, answers).Ok? || RenameMediaFiles(cfg, fs, store, yamlPaths, answers) == Ok(ReturnedFalse)
  {
    ProposedIffAllPlanned(cfg, fs, store, yamlPaths);
    assert PlanOne(cfg, fs, store, yamlPaths[k]) == Ok(None);
  }

  /** When every sidecar before it plans, a sidecar without media makes the operation return `false`. */
  lemma OrphanReturnsFalse(cfg: Config, fs: Listing, store: Store, yamlPaths: seq<Path>, answers: seq<string>, k: nat)
    requires k < |yamlPaths| && MediaPathsOf(cfg, fs, yamlPaths[k]) == Ok([])
    requires forall i :: 0 <= i < k ==>
      PlanOne(cfg, fs, store, yamlPaths[i]).Ok? && PlanOne(cfg, fs, store, yamlPaths[i]).value.Some?
    ensures RenameMediaFiles(cfg, fs, store, yamlPaths, answers) == Ok(ReturnedFalse)
  {
    var steps := Steps(cfg, fs, store, yamlPaths);
    var pre := steps[..k];
    GatherProposedIff(pre);
    assert steps[..k + 1][..k] == pre;
    assert steps[k] == Ok(None);
    GatherStops(steps, k + 1);
  }

  /** Every proposal is for a member whose name without extension is not the target, and carries the target. */
  lemma {:induction false} MismatchedSound(ms: seq<Member>, target: string)
    ensures forall p :: p in Mismatched(ms, target) ==>
      p.target == target && exists j :: 0 <= j < |ms| && ms[j].path == p.mediaPath && ms[j].stem != target
  {
    if ms != [] {
      var n := |ms|;
      var init := ms[..n - 1];
      MismatchedSound(init, target);
      assert forall j :: 0 <= j < n - 1 ==> init[j] == ms[j];
    }
  }

  /** Every member whose name without extension is not the target gets a proposal. */
  lemma {:induction false} MismatchedComplete(ms: seq<Member>, target: string)
    ensures forall j :: 0 <= j < |ms| && ms[j].stem != target ==> Proposal(ms[j].path, target) in Mismatched(ms, target)
  {
    if ms != [] {
      var n := |ms|;
      var init := ms[..n - 1];
      MismatchedComplete(init, target);
      var rest := Mismatched(init, target);
      forall j | 0 <= j < n && ms[j].stem != target
        ensures Proposal(ms[j].path, target) in Mismatched(ms, target)
      {
        if j < n - 1 {
          assert init[j] == ms[j];
          assert Proposal(init[j].path, target) in rest;
        }
      }
    }
  }

  /** Members that all already carry the target name give no proposal. */
  lemma {:induction false} NothingMismatched(ms: seq<Member>, target: string)
    requires forall j :: 0 <= j < |ms| ==> ms[j].stem == target
    ensures Mismatched(ms, target) == []
  {
    if ms != [] {
      var n := |ms|;
      assert forall j :: 0 <= j < n - 1 ==> ms[..n - 1][j] == ms[j];
      NothingMismatched(ms[..n - 1], target);
    }
  }

  /**
   * For a valid capture time in years 0 to 9999, the target name is the sixteen-character
   * date prefix, which reads back as the time, followed by the checksum in hex, which
   * reads back as the checksum; it holds no '.' and no '/', so it is a whole file stem.
   */
  lemma TargetNameRoundTrip(d: DateTime, crc: nat)
    requires ValidDateTime(d) && 0 <= d.year <= 9999
    ensures var t := TargetName(Some(d), crc);
      && |t| > 16
      && ParseDatePrefix(t[..16]) == Some(d)
      && var h := t[16..];
      && (forall i :: 0 <= i < |h| ==> IsUpperHexDigit(h[i]))
      && HexValue(h) == crc
      && '.' !in t && '/' !in t
  {
    var p, h := DatePrefix(Some(d)), ChecksumHex(crc);
    DatePrefixRoundTrip(d);
    ChecksumHexRoundTrip(crc);
    var t := p + h;
    assert t[..16] == p && t[16..] == h;
    TargetHasNoSeparators(Some(d), crc);
  }

  /** Whatever the capture time, the target name holds no '.' and no '/' and is not empty. */
  lemma TargetHasNoSeparators(takenAt: Option<DateTime>, crc: nat)
    ensures var t := TargetName(takenAt, crc);
      t != "" && '.' !in t && '/' !in t
  {
    var p, h := DatePrefix(takenAt), ChecksumHex(crc);
    DatePrefixHasNoSeparators(takenAt);
    ChecksumHexRoundTrip(crc);
    forall i | 0 <= i < |h| ensures h[i] != '.' && h[i] != '/' {
      assert IsUpperHexDigit(h[i]);
    }
    var t := p + h;
    forall i | 0 <= i < |t| ensures t[i] != '.' && t[i] != '/' {
      if i < |p| {
        assert t[i] == p[i] && p[i] in p;
      } else {
        assert t[i] == h[i - |p|];
      }
    }
  }

  /** A checksum below 2^32 keeps the target name within 24 characters for a four-digit year. */
  lemma TargetNameLength(d: DateTime, crc: nat)
    requires ValidDateTime(d) && 0 <= d.year <= 9999 && crc < 0x1_0000_0000
    ensures |TargetName(Some(d), crc)| <= 24
  {
    DatePrefixRoundTrip(d);
    ChecksumHexLength(crc);
  }

  /**
   * The new path keeps the folder and the extension of the file, and its name without
   * extension is the new name, when the new name is a plain stem.
   */
  lemma NewPathKeepsFolderAndExtension(filePath: Path, newName: string)
    requires CleanDir(Dirname(filePath))
    requires newName != "" && '.' !in newName && '/' !in newName
    ensures Dirname(NewPath(filePath, newName)) == Dirname(filePath)
    ensures Basename(NewPath(filePath, newName)) == newName + Extname(filePath)
    ensures Extname(NewPath(filePath, newName)) == Extname(filePath)
    ensures SidecarBase(NewPath(filePath, newName)) == newName
  {
    var d, e := Dirname(filePath), Extname(filePath);
    ExtnameSpec(filePath);
    StemAndExtension(newName, e);
    BasenameOfJoin(d, newName + e);
    ExtnameOfJoin(d, newName + e);
    DirnameOfJoin(d, newName + e);
  }

  /** Renaming a stack to its target leaves nothing to propose when the plan is made again. */
  lemma RenamingIsIdempotent(stack: seq<Path>, target: string)
    requires forall i :: 0 <= i < |stack| ==> CleanDir(Dirname(stack[i]))
    requires target != "" && '.' !in target && '/' !in target
    ensures Mismatched(Members(seq(|stack|, i requires 0 <= i < |stack| => NewPath(stack[i], target))), target) == []
  {
    var renamed := seq(|stack|, i requires 0 <= i < |stack| => NewPath(stack[i], target));
    var ms := Members(renamed);
    forall j | 0 <= j < |ms| ensures ms[j].stem == target {
      NewPathKeepsFolderAndExtension(stack[j], target);
    }
    NothingMismatched(ms, target);
  }

  /**
   * A stack made only of `.jpeg` files has no primary file, so once its sidecar is read
   * the operation throws: `.jpeg` fails the JPEG test, which compares with `jpeg` without
   * its dot.
   */
  lemma JpegStackThrows(cfg: Config, fs: Listing, store: Store, yamlPath: Path, stack: seq<Path>)
    requires MediaPathsOf(cfg, fs, yamlPath) == Ok(stack) && stack != []
    requires forall j :: 0 <= j < |stack| ==> Ext(stack[j]) == ".jpeg"
    requires yamlPath in store.records
    ensures PlanOne(cfg, fs, store, yamlPath) == Err(NoPrimary(yamlPath))
  {
    JpegOnlyStackHasNoPrimary(stack);
  }

  /**
   * When planning succeeds, every rename offered keeps its file's folder and extension and
   * gives it the stack's target, from a name that differed from it.
   */
  lemma PlannedRenameShape(cfg: Config, fs: Listing, store: Store, yamlPath: Path, p: Proposal)
    requires PlanOne(cfg, fs, store, yamlPath).Ok? && PlanOne(cfg, fs, store, yamlPath).value.Some?
    requires p in PlanOne(cfg, fs, store, yamlPath).value.value
    ensures p.mediaPath in MediaPathsOf(cfg, fs, yamlPath).value
    ensures SidecarBase(p.mediaPath) != p.target
    ensures p.target != "" && '.' !in p.target && '/' !in p.target
  {
    var stack := MediaPathsOf(cfg, fs, yamlPath).value;
    var primary := Select(stack).value;
    var target := TargetName(store.records[yamlPath].takenAt, store.checksums[primary]);
    var ms := Members(stack);
    MismatchedSound(ms, target);
    var j :| 0 <= j < |ms| && ms[j].path == p.mediaPath && ms[j].stem != target;
    assert ms[j] == Member(stack[j], SidecarBase(stack[j]));
    TargetHasNoSeparators(store.records[yamlPath].takenAt, store.checksums[primary]);
  }
}
