/**
 * `findOrphanedYamlFiles`: the sidecars no media file under the originals root belongs
 * to. A sidecar and a media file belong together when their base names agree up to the
 * first '.', wherever the two files are kept, so every frame of a burst
 * (`NAME.00002.jpg`) belongs to the one sidecar `NAME.yml`.
 */
module Orphans {
  import opened Results
  import opened Paths
  import opened Sequences
  import opened Media

  /** The name a sidecar and its media share: the base name up to its first '.'. */
  function Key(p: Path): string {
    BeforeFirstDot(Basename(p))
  }

  /** The keys of a list of files, in order. */
  function Keys(paths: seq<Path>): (ks: seq<string>)
    ensures |ks| == |paths|
    ensures forall i :: 0 <= i < |paths| ==> ks[i] == Key(paths[i])
  {
    seq(|paths|, i requires 0 <= i < |paths| => Key(paths[i]))
  }

  /** `mediaFiles.some(...)`: a media file shares the sidecar's key. */
  predicate HasMedia(mediaFiles: seq<Path>, yamlPath: Path) {
    Key(yamlPath) in Keys(mediaFiles)
  }

  /** The sidecars without media, in order. */
  function Orphaned(mediaFiles: seq<Path>, yamlPaths: seq<Path>): seq<Path> {
    if yamlPaths == [] then []
    else
      var y := yamlPaths[|yamlPaths| - 1];
      var kept := Orphaned(mediaFiles, yamlPaths[..|yamlPaths| - 1]);
      if HasMedia(mediaFiles, y) then kept else kept + [y]
  }

  /** The whole scan: every file under the originals root, then the sidecars none of them belongs to. */
  method FindOrphanedYamlFiles(cfg: Config, originals: seq<Node>, yamlPaths: seq<Path>) returns (orphanYamlPaths: seq<Path>)
    ensures orphanYamlPaths == Orphaned(Walk(cfg.originalsRoot, originals, None), yamlPaths)
  {
    var mediaFiles := RecursiveSearch(cfg.originalsRoot, originals, None);
    orphanYamlPaths := [];
    var i := 0;
    while i < |yamlPaths|
      invariant 0 <= i <= |yamlPaths|
      invariant orphanYamlPaths == Orphaned(mediaFiles, yamlPaths[..i])
    {
      assert yamlPaths[..i + 1][..i] == yamlPaths[..i];
      var yamlPath := yamlPaths[i];
      if !HasMedia(mediaFiles, yamlPath) {
        orphanYamlPaths := orphanYamlPaths + [yamlPath];
      }
      i := i + 1;
    }
    assert yamlPaths[..i] == yamlPaths;
  }

  // ---------------------------------------------------------------------------
  // Properties.
  // ---------------------------------------------------------------------------

  /** A sidecar has media exactly when some media file has the same key. */
  lemma HasMediaIff(mediaFiles: seq<Path>, yamlPath: Path)
    ensures HasMedia(mediaFiles, yamlPath) <==> exists m :: m in mediaFiles && Key(m) == Key(yamlPath)
  {
    var ks := Keys(mediaFiles);
    if HasMedia(mediaFiles, yamlPath) {
      var i :| 0 <= i < |ks| && ks[i] == Key(yamlPath);
      assert mediaFiles[i] in mediaFiles;
    }
  }

  /** The orphans are exactly the sidecars without media, in their order. */
  lemma {:induction false} OrphanedExactly(mediaFiles: seq<Path>, yamlPaths: seq<Path>)
    ensures forall y :: y in Orphaned(mediaFiles, yamlPaths) <==> y in yamlPaths && !HasMedia(mediaFiles, y)
    ensures IsSubsequence(Orphaned(mediaFiles, yamlPaths), yamlPaths)
  {
    if yamlPaths != [] {
      var n := |yamlPaths|;
      var init := yamlPaths[..n - 1];
      var y := yamlPaths[n - 1];
      OrphanedExactly(mediaFiles, init);
      assert yamlPaths == init + [y];
      var kept := Orphaned(mediaFiles, init);
      if HasMedia(mediaFiles, y) {
        SubsequenceExtend(kept, init, [y]);
      } else {
        SubsequenceSnoc(kept, init, y);
      }
    }
  }

  /**
   * Only the set of media keys matters: two listings with the same keys, in any order,
   * with any repetition and under any folders, leave the same orphans.
   */
  lemma {:induction false} OrphansDependOnKeysOnly(media1: seq<Path>, media2: seq<Path>, yamlPaths: seq<Path>)
    requires forall k :: k in Keys(media1) <==> k in Keys(media2)
    ensures Orphaned(media1, yamlPaths) == Orphaned(media2, yamlPaths)
  {
    if yamlPaths != [] {
      OrphansDependOnKeysOnly(media1, media2, yamlPaths[..|yamlPaths| - 1]);
    }
  }

  /** The key of a file named by a dot-free stem and an extension is the stem, whatever its folder. */
  lemma KeyOfName(folder: Path, stem: string, ext: string)
    requires '/' !in stem && '.' !in stem && '/' !in ext && (ext == "" || ext[0] == '.')
    ensures Key(folder + "/" + stem + ext) == stem
  {
    var p := folder + "/" + stem + ext;
    var b := stem + ext;
    forall j | |folder| < j < |p| ensures p[j] != '/' {
      assert p[j] == b[j - |folder| - 1];
      assert b[j - |folder| - 1] in stem || b[j - |folder| - 1] in ext;
    }
    LastIndexOfAt(p, '/', |folder|);
    assert Basename(p) == b;
    var r := BeforeFirstDot(b);
    assert r == b[..|stem|] == stem;
  }

  /**
   * The frames of a burst and the sidecar of the burst share a key, even when the sidecar
   * is kept under a different folder: such a sidecar is not an orphan.
   */
  lemma BurstFramesHaveTheirSidecar(mediaFiles: seq<Path>, mediaFolder: Path, sidecarFolder: Path, stem: string, frame: string, ext: string)
    requires '/' !in stem && '.' !in stem && '/' !in frame && '/' !in ext
    requires mediaFolder + "/" + stem + "." + frame + ext in mediaFiles
    ensures !(sidecarFolder + "/" + stem + ".yml" in Orphaned(mediaFiles, [sidecarFolder + "/" + stem + ".yml"]))
  {
    var m := mediaFolder + "/" + stem + "." + frame + ext;
    var y := sidecarFolder + "/" + stem + ".yml";
    assert m == mediaFolder + "/" + stem + ("." + frame + ext);
    KeyOfName(mediaFolder, stem, "." + frame + ext);
    KeyOfName(sidecarFolder, stem, ".yml");
    HasMediaIff(mediaFiles, y);
    OrphanedExactly(mediaFiles, [y]);
  }
}
