/**
 * Locating media files: the directory walk (`recursiveSearch`), the translation of a
 * sidecar path into the originals folder, and the matcher that collects the stack of
 * media files sharing a sidecar's base name (`findMediaPath`, `findImagePaths`).
 */
module Media {
  import opened Results
  import opened Paths

  /** What `stat` reports for a directory entry: a directory, anything else, or a failure. */
  datatype Kind = Directory | NotDirectory | StatFails

  datatype Entry = Entry(name: string, kind: Kind)

  /**
   * The file system as the scripts see it: for every existing directory, the entries
   * `readdir` lists, in listing order. A path that is not a key does not exist.
   */
  type Listing = map<Path, seq<Entry>>

  /** `readdir` yields plain names. */
  predicate ValidListing(fs: Listing) {
    forall d, e :: d in fs && e in fs[d] ==> FileName(e.name)
  }

  /** The two configured roots: where media files live and where their sidecars live. */
  datatype Config = Config(originalsRoot: Path, sidecarRoot: Path)

  /** The error `findMediaPath` throws for a sidecar outside the sidecar root. */
  datatype MatchError = SidecarOutsideRoot(path: Path)

  /** The name a sidecar and its media files share: the file name without its extension. */
  function SidecarBase(p: Path): string {
    RemoveExtension(Basename(p))
  }

  /** The folder a sidecar's media should be in: its path below the sidecar root, re-rooted under originals, minus the file name. */
  function MediaDir(cfg: Config, yamlPath: Path): Path
    requires StartsWith(yamlPath, cfg.sidecarRoot)
  {
    Dirname(Join(cfg.originalsRoot, yamlPath[|cfg.sidecarRoot|..]))
  }

  /**
   * The stack found in one listing: every entry that is not a directory and whose name
   * without extension is `base`, joined onto `dir`, in listing order. A failing `stat`
   * ends the scan, and what was found before it is kept.
   */
  function StackIn(dir: Path, entries: seq<Entry>, base: string): (stack: seq<Path>)
    ensures |stack| <= |entries|
  {
    if entries == [] then []
    else
      var e := entries[0];
      var rest := StackIn(dir, entries[1..], base);
      match e.kind
      case StatFails => []
      case Directory => rest
      case NotDirectory => if RemoveExtension(e.name) == base then [Join(dir, e.name)] + rest else rest
  }

  /** What `findMediaPath` resolves for one sidecar path. */
  function MediaPathsOf(cfg: Config, fs: Listing, yamlPath: Path): Result<seq<Path>, MatchError> {
    if !StartsWith(yamlPath, cfg.sidecarRoot) then Err(SidecarOutsideRoot(yamlPath))
    else
      var dir := MediaDir(cfg, yamlPath);
      if dir !in fs then Ok([]) else Ok(StackIn(dir, fs[dir], SidecarBase(yamlPath)))
  }

  /** `findMediaPath`: the media files of one sidecar, found by scanning its media folder. */
  method FindMediaPath(cfg: Config, fs: Listing, yamlPath: Path) returns (r: Result<seq<Path>, MatchError>)
    ensures r == MediaPathsOf(cfg, fs, yamlPath)
  {
    if !StartsWith(yamlPath, cfg.sidecarRoot) {
      return Err(SidecarOutsideRoot(yamlPath));
    }
    var dir := MediaDir(cfg, yamlPath);
    if dir !in fs {
      // `access` fails: the folder does not exist and the sidecar is an orphan.
      return Ok([]);
    }
    var stack := ScanFolder(dir, fs[dir], SidecarBase(yamlPath));
    return Ok(stack);
  }

  /** The loop of `findMediaPath` over one folder's entries. */
  method ScanFolder(dir: Path, entries: seq<Entry>, base: string) returns (stack: seq<Path>)
    ensures stack == StackIn(dir, entries, base)
  {
    stack := [];
    var i := 0;
    while i < |entries|
      invariant 0 <= i <= |entries|
      invariant StackIn(dir, entries, base) == stack + StackIn(dir, entries[i..], base)
    {
      var e := entries[i];
      assert entries[i..][1..] == entries[i + 1..];
      if e.kind == StatFails {
        // The `stat` error is swallowed by the surrounding catch.
        assert StackIn(dir, entries[i..], base) == [];
        return;
      }
      if e.kind == NotDirectory && RemoveExtension(e.name) == base {
        stack := stack + [Join(dir, e.name)];
      }
      i := i + 1;
    }
  }

  /** What `findImagePaths` returns: the stacks of all sidecars, concatenated in order. */
  function ImagePathsOf(cfg: Config, fs: Listing, yamlPaths: seq<Path>): Result<seq<Path>, MatchError> {
    if yamlPaths == [] then Ok([])
    else match MediaPathsOf(cfg, fs, yamlPaths[0])
      case Err(e) => Err(e)
      case Ok(stack) =>
        match ImagePathsOf(cfg, fs, yamlPaths[1..])
        case Err(e) => Err(e)
        case Ok(more) => Ok(stack + more)
  }

  /** `findImagePaths`. */
  method FindImagePaths(cfg: Config, fs: Listing, yamlPaths: seq<Path>) returns (r: Result<seq<Path>, MatchError>)
    ensures r == ImagePathsOf(cfg, fs, yamlPaths)
  {
    var result: seq<Path> := [];
    var i := 0;
    while i < |yamlPaths|
      invariant 0 <= i <= |yamlPaths|
      invariant ImagePathsOf(cfg, fs, yamlPaths[..i]) == Ok(result)
    {
      var found := FindMediaPath(cfg, fs, yamlPaths[i]);
      ImagePathsSnoc(cfg, fs, yamlPaths[..i], yamlPaths[i]);
      assert yamlPaths[..i] + [yamlPaths[i]] == yamlPaths[..i + 1];
      if found.Err? {
        ImagePathsAppend(cfg, fs, yamlPaths[..i + 1], yamlPaths[i + 1..]);
        assert yamlPaths[..i + 1] + yamlPaths[i + 1..] == yamlPaths;
        return Err(found.error);
      }
      result := result + found.value;
      i := i + 1;
    }
    assert yamlPaths[..i] == yamlPaths;
    return Ok(result);
  }

  /** The paths found so far in front of the outcome of the rest. */
  function Prepend(found: seq<Path>, rest: Result<seq<Path>, MatchError>): Result<seq<Path>, MatchError> {
    match rest
    case Ok(more) => Ok(found + more)
    case Err(e) => Err(e)
  }

  // ---------------------------------------------------------------------------
  // The directory walk.
  // ---------------------------------------------------------------------------

  /** A directory tree: files, folders with their entries in listing order, and entries that are neither. */
  datatype Node = File(name: string) | Folder(name: string, children: seq<Node>) | Special(name: string)

  /** Every name in the tree is a plain name. */
  predicate ValidTree(children: seq<Node>)
    decreases children
  {
    forall i :: 0 <= i < |children| ==>
      FileName(children[i].name) && (children[i].Folder? ==> ValidTree(children[i].children))
  }

  /** Whether `recursiveSearch` keeps a file: always without a filter, else when its extension is listed. */
  predicate Wanted(name: string, exts: Option<seq<string>>) {
    exts.None? || Extname(name) in exts.value
  }

  /** The path of a file in `folder` when it is wanted, and nothing otherwise. */
  function FileHit(folder: Path, name: string, exts: Option<seq<string>>): seq<Path> {
    if Wanted(name, exts) then [Join(folder, name)] else []
  }

  /** The paths `recursiveSearch` collects under `folder`: for each entry in listing order, what that entry contributes. */
  function Walk(folder: Path, children: seq<Node>, exts: Option<seq<string>>): seq<Path>
    decreases children
  {
    if children == [] then [] else EntryPaths(folder, children[0], exts) + Walk(folder, children[1..], exts)
  }

  /** A wanted file contributes its path, a folder everything collected under it, anything else nothing. */
  function EntryPaths(folder: Path, n: Node, exts: Option<seq<string>>): seq<Path>
    decreases n
  {
    match n
    case File(name) => FileHit(folder, name, exts)
    case Folder(name, sub) => Walk(Join(folder, name), sub, exts)
    case Special(_) => []
  }

  /** `recursiveSearch(folder, extensionNames)`, over the entries of `folder`. */
  method RecursiveSearch(folder: Path, children: seq<Node>, exts: Option<seq<string>>) returns (paths: seq<Path>)
    ensures paths == Walk(folder, children, exts)
    decreases children
  {
    paths := [];
    var i := 0;
    while i < |children|
      invariant 0 <= i <= |children|
      invariant Walk(folder, children, exts) == paths + Walk(folder, children[i..], exts)
    {
      ghost var rest := Walk(folder, children[i + 1..], exts);
      assert Walk(folder, children[i..], exts) == EntryPaths(folder, children[i], exts) + rest by {
        assert children[i..][1..] == children[i + 1..];
      }
      var found := SearchEntry(folder, children[i], exts);
      assert paths + (found + rest) == (paths + found) + rest;
      paths := paths + found;
      i := i + 1;
    }
  }

  /** One turn of `recursiveSearch`'s loop: recurse into a folder, keep a wanted file. */
  method SearchEntry(folder: Path, n: Node, exts: Option<seq<string>>) returns (found: seq<Path>)
    ensures found == EntryPaths(folder, n, exts)
    decreases n
  {
    match n {
      case File(name) =>
        found := FileHit(folder, name, exts);
      case Folder(name, sub) =>
        found := RecursiveSearch(Join(folder, name), sub, exts);
      case Special(_) =>
        found := [];
    }
  }

  // ---------------------------------------------------------------------------
  // Properties.
  // ---------------------------------------------------------------------------

  /** With an extension filter, every collected file has one of the listed extensions. */
  lemma {:induction false} WalkKeepsFilter(folder: Path, children: seq<Node>, exts: Option<seq<string>>)
    requires exts.Some? && ValidTree(children)
    ensures forall p :: p in Walk(folder, children, exts) ==> Extname(p) in exts.value
    decreases children
  {
    if children != [] {
      assert ValidTree(children[1..]) by {
        forall i | 0 <= i < |children[1..]| ensures children[1..][i] == children[i + 1] { }
      }
      WalkKeepsFilter(folder, children[1..], exts);
      EntryKeepsFilter(folder, children[0], exts);
    }
  }

  lemma {:induction false} EntryKeepsFilter(folder: Path, n: Node, exts: Option<seq<string>>)
    requires exts.Some? && FileName(n.name) && (n.Folder? ==> ValidTree(n.children))
    ensures forall p :: p in EntryPaths(folder, n, exts) ==> Extname(p) in exts.value
    decreases n
  {
    match n
    case File(name) =>
      ExtnameOfJoin(folder, name);
    case Folder(name, sub) =>
      WalkKeepsFilter(Join(folder, name), sub, exts);
    case Special(_) =>
  }

  /** What an entry contributes is part of what its folder contributes. */
  lemma {:induction false} WalkHasEntry(folder: Path, children: seq<Node>, exts: Option<seq<string>>, i: nat)
    requires i < |children|
    ensures forall p :: p in EntryPaths(folder, children[i], exts) ==> p in Walk(folder, children, exts)
    decreases i
  {
    if i > 0 {
      WalkHasEntry(folder, children[1..], exts, i - 1);
    }
  }

  /**
   * The folder reached from `folder` by entering, level by level, the sub-folders at the
   * positions `route` lists, with its entries; nothing when a position is not a folder.
   */
  function Descend(folder: Path, children: seq<Node>, route: seq<nat>): Option<(Path, seq<Node>)>
    decreases |route|
  {
    if route == [] then Some((folder, children))
    else if route[0] < |children| && children[route[0]].Folder? then
      var c := children[route[0]];
      Descend(Join(folder, c.name), c.children, route[1..])
    else None
  }

  /**
   * The walk misses nothing: every wanted file of every folder reached below the start,
   * at any depth, is collected under the path its folders give it.
   */
  lemma {:induction false} WalkComplete(folder: Path, children: seq<Node>, exts: Option<seq<string>>, route: seq<nat>, i: nat)
    requires Descend(folder, children, route).Some?
    requires var (f, es) := Descend(folder, children, route).value;
      i < |es| && es[i].File? && Wanted(es[i].name, exts)
    ensures var (f, es) := Descend(folder, children, route).value;
      Join(f, es[i].name) in Walk(folder, children, exts)
    decreases |route|
  {
    if route == [] {
      WalkHasEntry(folder, children, exts, i);
    } else {
      var c := children[route[0]];
      WalkComplete(Join(folder, c.name), c.children, exts, route[1..], i);
      WalkHasEntry(folder, children, exts, route[0]);
    }
  }

  /** When no `stat` fails, every non-directory entry named like the sidecar is in the stack. */
  lemma {:induction false} StackComplete(dir: Path, entries: seq<Entry>, base: string)
    requires forall e :: e in entries ==> e.kind != StatFails
    ensures forall e :: e in entries && e.kind == NotDirectory && RemoveExtension(e.name) == base ==>
      Join(dir, e.name) in StackIn(dir, entries, base)
  {
    if entries != [] {
      assert forall x :: x in entries[1..] ==> x in entries;
      StackComplete(dir, entries[1..], base);
      forall e | e in entries && e.kind == NotDirectory && RemoveExtension(e.name) == base
        ensures Join(dir, e.name) in StackIn(dir, entries, base)
      {
        if e != entries[0] {
          assert e in entries[1..];
        }
      }
    }
  }

  /** A failing `stat` at entry k leaves the stack found in the entries before it. */
  lemma {:induction false} StackStopsAtStatFailure(dir: Path, entries: seq<Entry>, base: string, k: nat)
    requires k < |entries| && entries[k].kind == StatFails
    ensures StackIn(dir, entries, base) == StackIn(dir, entries[..k], base)
  {
    if k > 0 {
      StackStopsAtStatFailure(dir, entries[1..], base, k - 1);
      assert entries[1..][..k - 1] == entries[..k][1..];
    } else {
      assert entries[..0] == [];
    }
  }

  /** A folder holding only N files named like the sidecar (any extensions) gives a stack of N. */
  lemma {:induction false} StackOfSameNamedFiles(dir: Path, entries: seq<Entry>, base: string)
    requires forall e :: e in entries ==> e.kind == NotDirectory && RemoveExtension(e.name) == base
    ensures |StackIn(dir, entries, base)| == |entries|
  {
    if entries != [] {
      assert forall x :: x in entries[1..] ==> x in entries;
      StackOfSameNamedFiles(dir, entries[1..], base);
    }
  }

  /** Every path in a stack is a non-directory entry of the listing, named like the sidecar, joined onto the folder. */
  lemma {:induction false} StackMembers(dir: Path, entries: seq<Entry>, base: string)
    ensures forall p :: p in StackIn(dir, entries, base) ==>
      exists e :: e in entries && e.kind == NotDirectory && RemoveExtension(e.name) == base && p == Join(dir, e.name)
  {
    if entries != [] {
      StackMembers(dir, entries[1..], base);
      assert forall x :: x in entries[1..] ==> x in entries;
    }
  }

  /**
   * Every media file found for a sidecar has the sidecar's base name; a sidecar outside
   * the sidecar root is an error, and a missing media folder gives an empty stack.
   */
  lemma MediaPathsShareBase(cfg: Config, fs: Listing, yamlPath: Path)
    requires ValidListing(fs)
    ensures MediaPathsOf(cfg, fs, yamlPath).Err? <==> !StartsWith(yamlPath, cfg.sidecarRoot)
    ensures StartsWith(yamlPath, cfg.sidecarRoot) && MediaDir(cfg, yamlPath) !in fs ==>
      MediaPathsOf(cfg, fs, yamlPath) == Ok([])
    ensures MediaPathsOf(cfg, fs, yamlPath).Ok? ==>
      forall p :: p in MediaPathsOf(cfg, fs, yamlPath).value ==> SidecarBase(p) == SidecarBase(yamlPath)
  {
    if StartsWith(yamlPath, cfg.sidecarRoot) {
      var dir := MediaDir(cfg, yamlPath);
      if dir in fs {
        var base := SidecarBase(yamlPath);
        StackMembers(dir, fs[dir], base);
        forall p | p in StackIn(dir, fs[dir], base) ensures SidecarBase(p) == base {
          var e :| e in fs[dir] && e.kind == NotDirectory && RemoveExtension(e.name) == base
            && p == Join(dir, e.name);
          BasenameOfJoin(dir, e.name);
        }
      }
    }
  }

  /** An originals root ending in a single '/'. */
  predicate RootDir(r: Path) {
    |r| >= 1 && r[|r| - 1] == '/' && (|r| == 1 || (r[|r| - 2] != '/' && r[..|r| - 1] != "."))
  }

  /**
   * `removeExtension` strips only the last extension, so a name of the form
   * `stem.frame.ext` (the frames of a burst, `NAME.00002.jpg`) keeps `.frame`.
   */
  lemma BurstNameKeepsFrame(stem: string, frame: string, ext: string)
    requires ext != "" && ext[0] == '.'
    ensures RemoveExtension(stem + "." + frame + ext) != stem
  {
    var n := stem + "." + frame + ext;
    var k := |stem| + 1 + |frame|;
    assert n[k] == '.';
    RemoveExtensionSpec(n);
  }

  /**
   * The frames of a burst are not part of the stack of the burst's sidecar: a file named
   * `stem.frame.ext` is never found for a sidecar named `stem.yml`.
   */
  lemma BurstFramesAreMissed(cfg: Config, fs: Listing, yamlPath: Path, stem: string, frame: string, ext: string)
    requires ValidListing(fs) && SidecarBase(yamlPath) == stem
    requires ext != "" && ext[0] == '.'
    requires MediaPathsOf(cfg, fs, yamlPath).Ok?
    ensures forall p :: p in MediaPathsOf(cfg, fs, yamlPath).value ==> Basename(p) != stem + "." + frame + ext
  {
    MediaPathsShareBase(cfg, fs, yamlPath);
    BurstNameKeepsFrame(stem, frame, ext);
  }

  /**
   * Path translation for a sidecar directly under the sidecar root: a media file named
   * `b` in the translated folder sits directly under the originals root.
   */
  lemma MediaFileLocationTop(cfg: Config, name: Path, b: Path)
    requires RootDir(cfg.originalsRoot) && FileName(name) && FileName(b)
    ensures StartsWith(cfg.sidecarRoot + name, cfg.sidecarRoot)
    ensures Join(MediaDir(cfg, cfg.sidecarRoot + name), b) == cfg.originalsRoot + b
  {
    var o, y := cfg.originalsRoot, cfg.sidecarRoot + name;
    assert StartsWith(y, cfg.sidecarRoot) && y[|cfg.sidecarRoot|..] == name by {
      assert y[..|cfg.sidecarRoot|] == cfg.sidecarRoot;
    }
    var p := o + name;
    assert Join(o, name) == p;
    forall j | |o| - 1 < j < |p| ensures p[j] != '/' {
      assert p[j] == name[j - |o|];
    }
    LastIndexOfAt(p, '/', |o| - 1);
    if |o| > 1 {
      var d := o[..|o| - 1];
      assert Dirname(p) == d by {
        assert p[..|o| - 1] == d;
      }
      assert d != "" && d != "." && d[|d| - 1] != '/';
      assert d + "/" == o;
    }
  }

  /**
   * Path translation for a sidecar in a sub-folder `relDir` of the sidecar root: a media
   * file named `b` in the translated folder sits in the same sub-folder of the originals
   * root, so the folder structure is kept.
   */
  lemma MediaFileLocationNested(cfg: Config, relDir: Path, name: Path, b: Path)
    requires RootDir(cfg.originalsRoot) && FileName(name) && FileName(b)
    requires relDir != "" && relDir[0] != '/' && relDir[|relDir| - 1] != '/'
    ensures StartsWith(cfg.sidecarRoot + relDir + "/" + name, cfg.sidecarRoot)
    ensures Join(MediaDir(cfg, cfg.sidecarRoot + relDir + "/" + name), b) == cfg.originalsRoot + relDir + "/" + b
  {
    var o, rel := cfg.originalsRoot, relDir + "/" + name;
    var y := cfg.sidecarRoot + rel;
    assert y == cfg.sidecarRoot + relDir + "/" + name;
    assert StartsWith(y, cfg.sidecarRoot) && y[|cfg.sidecarRoot|..] == rel by {
      assert y[..|cfg.sidecarRoot|] == cfg.sidecarRoot;
    }
    var p := o + rel;
    assert Join(o, rel) == p;
    var d := o + relDir;
    assert p == d + "/" + name;
    forall j | |d| < j < |p| ensures p[j] != '/' {
      assert p[j] == name[j - |d| - 1];
    }
    LastIndexOfAt(p, '/', |d|);
    assert Dirname(p) == d by {
      assert p[..|d|] == d;
    }
    assert d != "" && d != "." && d[|d| - 1] != '/';
  }

  /** The stacks of two runs of sidecars, one after the other, are the stacks of the joined run. */
  lemma {:induction false} ImagePathsAppend(cfg: Config, fs: Listing, a: seq<Path>, b: seq<Path>)
    ensures ImagePathsOf(cfg, fs, a + b) ==
      match ImagePathsOf(cfg, fs, a)
      case Err(e) => Err(e)
      case Ok(found) => Prepend(found, ImagePathsOf(cfg, fs, b))
  {
    if a == [] {
      assert a + b == b;
      match ImagePathsOf(cfg, fs, b)
      case Ok(more) => assert [] + more == more;
      case Err(_) =>
    } else {
      assert (a + b)[0] == a[0];
      assert (a + b)[1..] == a[1..] + b;
      ImagePathsAppend(cfg, fs, a[1..], b);
      match MediaPathsOf(cfg, fs, a[0])
      case Err(_) =>
      case Ok(stack) =>
        match ImagePathsOf(cfg, fs, a[1..])
        case Err(_) =>
        case Ok(found) =>
          match ImagePathsOf(cfg, fs, b)
          case Err(_) =>
          case Ok(more) => assert stack + (found + more) == (stack + found) + more;
    }
  }

  /** One more sidecar adds its stack at the end, or its error. */
  lemma ImagePathsSnoc(cfg: Config, fs: Listing, ys: seq<Path>, y: Path)
    ensures ImagePathsOf(cfg, fs, ys + [y]) ==
      match ImagePathsOf(cfg, fs, ys)
      case Err(e) => Err(e)
      case Ok(found) =>
        match MediaPathsOf(cfg, fs, y)
        case Err(e) => Err(e)
        case Ok(stack) => Ok(found + stack)
  {
    ImagePathsAppend(cfg, fs, ys, [y]);
    assert [y][1..] == [];
    match MediaPathsOf(cfg, fs, y)
    case Err(_) =>
    case Ok(stack) => assert stack + [] == stack;
  }

  /** `findImagePaths` throws exactly when some sidecar lies outside the sidecar root. */
  lemma {:induction false} ImagePathsFail(cfg: Config, fs: Listing, yamlPaths: seq<Path>)
    ensures ImagePathsOf(cfg, fs, yamlPaths).Err? <==>
      exists i :: 0 <= i < |yamlPaths| && !StartsWith(yamlPaths[i], cfg.sidecarRoot)
  {
    if yamlPaths != [] {
      ImagePathsFail(cfg, fs, yamlPaths[1..]);
      if exists i :: 0 <= i < |yamlPaths[1..]| && !StartsWith(yamlPaths[1..][i], cfg.sidecarRoot) {
        var i :| 0 <= i < |yamlPaths[1..]| && !StartsWith(yamlPaths[1..][i], cfg.sidecarRoot);
        assert yamlPaths[1..][i] == yamlPaths[i + 1];
      }
      if exists i :: 0 <= i < |yamlPaths| && !StartsWith(yamlPaths[i], cfg.sidecarRoot) {
        var i :| 0 <= i < |yamlPaths| && !StartsWith(yamlPaths[i], cfg.sidecarRoot);
        if i > 0 {
          assert yamlPaths[1..][i - 1] == yamlPaths[i];
        }
      }
    }
  }
}
