/**
 * The string operations the scripts use on paths: JavaScript's `lastIndexOf`,
 * `startsWith`, `replace` and `split('.')[0]`, and Node's POSIX `path.basename`,
 * `path.dirname`, `path.extname` and `path.join`, on '/'-separated paths that are
 * already normalised (no `.` or `..` segments to resolve).
 */
module Paths {

  type Path = string

  /** `s.lastIndexOf(c)`: the index of the last `c` in `s`, or -1. */
  function LastIndexOf(s: string, c: char): (k: int)
    ensures -1 <= k < |s|
    ensures 0 <= k ==> s[k] == c
  {
    LastIndexBelow(s, c, |s|)
  }

  /** The index of the last `c` among the first `n` characters of `s`, or -1. */
  function LastIndexBelow(s: string, c: char, n: nat): (k: int)
    requires n <= |s|
    ensures -1 <= k < n
    ensures 0 <= k ==> s[k] == c
  {
    if n == 0 then -1
    else if s[n - 1] == c then n - 1
    else LastIndexBelow(s, c, n - 1)
  }

  /** No `c` comes after the index `lastIndexOf` returns. */
  lemma LastIndexOfIsLast(s: string, c: char)
    ensures forall j :: LastIndexOf(s, c) < j < |s| ==> s[j] != c
  {
    LastIndexBelowIsLast(s, c, |s|);
  }

  lemma {:induction false} LastIndexBelowIsLast(s: string, c: char, n: nat)
    requires n <= |s|
    ensures forall j :: LastIndexBelow(s, c, n) < j < n ==> s[j] != c
  {
    if n > 0 && s[n - 1] != c {
      LastIndexBelowIsLast(s, c, n - 1);
    }
  }

  /** The last `c` is at `k` exactly when `s[k] == c` and no later character is `c`. */
  lemma LastIndexOfAt(s: string, c: char, k: int)
    requires -1 <= k < |s|
    requires 0 <= k ==> s[k] == c
    requires forall j :: k < j < |s| ==> s[j] != c
    ensures LastIndexOf(s, c) == k
  {
    LastIndexBelowAt(s, c, k, |s|);
  }

  lemma {:induction false} LastIndexBelowAt(s: string, c: char, k: int, n: nat)
    requires -1 <= k < n <= |s|
    requires 0 <= k ==> s[k] == c
    requires forall j :: k < j < n ==> s[j] != c
    ensures LastIndexBelow(s, c, n) == k
  {
    if k < n - 1 {
      LastIndexBelowAt(s, c, k, n - 1);
    }
  }

  /** `s.startsWith(prefix)`. */
  predicate StartsWith(s: string, prefix: string) {
    |prefix| <= |s| && s[..|prefix|] == prefix
  }

  /**
   * `removeExtension`: `p.substring(0, p.lastIndexOf('.')) || p`. The substring is
   * empty when there is no dot (a negative end counts as 0) or when the only last dot
   * is at index 0, and the empty string then falls back to `p`.
   */
  function RemoveExtension(p: Path): Path {
    var k := LastIndexOf(p, '.');
    if k <= 0 then p else p[..k]
  }

  /**
   * `removeExtension` keeps a prefix of the path. It returns the path unchanged exactly
   * when no '.' follows the first character; otherwise it cuts at the last '.', which is
   * not the first character.
   */
  lemma RemoveExtensionSpec(p: Path)
    ensures var r := RemoveExtension(p);
      && |r| <= |p| && r == p[..|r|]
      && (r == p <==> forall j :: 0 < j < |p| ==> p[j] != '.')
      && (r != p ==> 0 < |r| && p[|r|] == '.' && forall j :: |r| < j < |p| ==> p[j] != '.')
  {
    LastIndexOfIsLast(p, '.');
  }

  /** `path.basename(p)` for a path not ending in '/': the text after the last '/'. */
  function Basename(p: Path): Path {
    p[LastIndexOf(p, '/') + 1..]
  }

  /** The base name holds no '/', ends the path, and is preceded by '/' when it is not the whole path. */
  lemma BasenameSpec(p: Path)
    ensures var b := Basename(p);
      && (forall i :: 0 <= i < |b| ==> b[i] != '/')
      && |b| <= |p| && b == p[|p| - |b|..]
      && (|b| < |p| ==> p[|p| - |b| - 1] == '/')
  {
    LastIndexOfIsLast(p, '/');
  }

  /**
   * `path.dirname(p)` for a path not ending in '/': the text before the last '/', "/" when
   * that is the root, "." when there is no '/'.
   */
  function Dirname(p: Path): Path {
    var k := LastIndexOf(p, '/');
    if k < 0 then "." else if k == 0 then "/" else p[..k]
  }

  /**
   * `path.extname(p)`: from the last '.' of the base name to its end; empty when the
   * base name has no '.', when its only last '.' is its first character, and for "..".
   */
  function Extname(p: Path): string {
    var b := Basename(p);
    var k := LastIndexOf(b, '.');
    if k <= 0 || b == ".." then "" else b[k..]
  }

  /** An extension is empty, or a '.' followed by neither '.' nor '/'. */
  lemma ExtnameSpec(p: Path)
    ensures var e := Extname(p);
      e == "" || (e[0] == '.' && '.' !in e[1..] && '/' !in e)
  {
    var b := Basename(p);
    var k := LastIndexOf(b, '.');
    if !(k <= 0 || b == "..") {
      BasenameSpec(p);
      LastIndexOfIsLast(b, '.');
      LastDotSuffix(b, k);
    }
  }

  /** The text from the last '.' of a '/'-free name on is a '.' followed by neither '.' nor '/'. */
  lemma LastDotSuffix(b: string, k: int)
    requires 0 <= k < |b| && b[k] == '.'
    requires forall j :: k < j < |b| ==> b[j] != '.'
    requires forall i :: 0 <= i < |b| ==> b[i] != '/'
    ensures b[k..][0] == '.' && '.' !in b[k..][1..] && '/' !in b[k..]
  {
    var e := b[k..];
    assert forall i :: 0 <= i < |e| ==> e[i] == b[k + i];
    assert forall i :: 0 <= i < |e| ==> e[i] != '/';
    var t := e[1..];
    assert forall i :: 0 <= i < |t| ==> t[i] == b[k + 1 + i];
    assert forall i :: 0 <= i < |t| ==> t[i] != '.';
  }

  /**
   * `path.join(a, b)` for two segments of a normalised path: an empty or "." segment
   * contributes nothing, and exactly one '/' separates the two parts.
   */
  function Join(a: Path, b: Path): Path {
    if b == "" || b == "." then (if a == "" then "." else a)
    else if a == "" || a == "." then b
    else if a[|a| - 1] == '/' then a + b
    else a + "/" + b
  }

  /** A directory entry name as `readdir` returns it. */
  predicate FileName(b: string) {
    b != "" && b != "." && b != ".." && '/' !in b
  }

  /** A directory path as `path.dirname` returns it for a path without repeated '/'. */
  predicate CleanDir(d: Path) {
    d == "." || d == "/" || (d != "" && d[|d| - 1] != '/')
  }

  /** `s.indexOf(pat, from)`: the first index at or after `from` where `pat` occurs, or -1. */
  function IndexOfFrom(s: string, pat: string, from: nat): (r: int)
    requires from <= |s|
    decreases |s| - from
    ensures r == -1 || (from <= r && r + |pat| <= |s| && s[r..r + |pat|] == pat)
  {
    if |s| - from < |pat| then -1
    else if s[from..from + |pat|] == pat then from
    else IndexOfFrom(s, pat, from + 1)
  }

  /** `s.replace(pat, '')`: removes the first occurrence of `pat`, if any. */
  function ReplaceFirst(s: string, pat: string): string {
    var i := IndexOfFrom(s, pat, 0);
    if i < 0 then s else s[..i] + s[i + |pat|..]
  }

  /** `s.split('.')[0]`: the text before the first '.', or all of `s`. */
  function BeforeFirstDot(s: string): (r: string)
    ensures '.' !in r
    ensures |r| <= |s| && r == s[..|r|]
    ensures |r| < |s| ==> s[|r|] == '.'
  {
    if s == [] then []
    else if s[0] == '.' then []
    else [s[0]] + BeforeFirstDot(s[1..])
  }

  /** Lower-casing of one character: an ASCII capital becomes its small letter; every other character is kept. */
  function LowerChar(c: char): char {
    if 'A' <= c <= 'Z' then (c as int + 32) as char else c
  }

  /**
   * `s.toLocaleLowerCase()` as far as ASCII goes: the capitals A-Z are lowered and every
   * other character is kept, so the Unicode and locale-dependent case rules are not modelled.
   */
  function Lower(s: string): string {
    seq(|s|, i requires 0 <= i < |s| => LowerChar(s[i]))
  }

  // ---------------------------------------------------------------------------
  // Properties of the path algebra.
  // ---------------------------------------------------------------------------

  /** The examples of `removeExtension`: only the final extension goes, and a directory prefix stays. */
  lemma RemoveExtensionExamples()
    ensures RemoveExtension("file.png") == "file"
    ensures RemoveExtension("file.png.zip") == "file.png"
    ensures RemoveExtension("file") == "file"
    ensures RemoveExtension("/path/to/file.png") == "/path/to/file"
    ensures RemoveExtension("./path/to/file.png") == "./path/to/file"
    ensures RemoveExtension(".hidden") == ".hidden"
  {
    LastIndexOfAt("file.png", '.', 4);
    LastIndexOfAt("file.png.zip", '.', 8);
    LastIndexOfAt("/path/to/file.png", '.', 13);
    LastIndexOfAt("./path/to/file.png", '.', 14);
  }

  /** A name with no '.' has no extension to strip. */
  lemma RemoveExtensionNoDot(s: string)
    requires '.' !in s
    ensures RemoveExtension(s) == s
  {
    assert forall j :: 0 < j < |s| ==> s[j] != '.' by {
      forall j | 0 < j < |s| ensures s[j] != '.' {
        assert s[j] in s;
      }
    }
  }

  /** Two plain segments are joined with one '/'. */
  lemma JoinSeparated(a: Path, b: Path)
    requires |a| >= 2 && |b| >= 2 && a[|a| - 1] != '/'
    ensures Join(a, b) == a + "/" + b
  {
  }

  /** A file name joined onto any directory is the base name of the result. */
  lemma BasenameOfJoin(d: Path, b: Path)
    requires FileName(b)
    ensures Basename(Join(d, b)) == b
  {
    var p := Join(d, b);
    if d == "" || d == "." {
      LastIndexOfAt(p, '/', -1);
    } else {
      assert p == p[..|p| - |b|] + b;
      assert p[|p| - |b| - 1] == '/';
      forall j | |p| - |b| - 1 < j < |p| ensures p[j] != '/' {
        assert p[j] == b[j - (|p| - |b|)];
      }
      LastIndexOfAt(p, '/', |p| - |b| - 1);
    }
  }

  /** A file name joined onto any directory keeps its extension. */
  lemma ExtnameOfJoin(d: Path, b: Path)
    requires FileName(b)
    ensures Extname(Join(d, b)) == Extname(b)
  {
    BasenameOfJoin(d, b);
    LastIndexOfAt(b, '/', -1) by {
      forall j | 0 <= j < |b| ensures b[j] != '/' {
        assert b[j] in b;
      }
    }
  }

  /** A file name joined onto a clean directory has that directory as its dirname. */
  lemma DirnameOfJoin(d: Path, b: Path)
    requires FileName(b) && CleanDir(d)
    ensures Dirname(Join(d, b)) == d
  {
    var p := Join(d, b);
    if d == "." {
      assert p == b;
      LastIndexOfAt(p, '/', -1);
    } else if d == "/" {
      assert p == "/" + b;
      forall j | 0 < j < |p| ensures p[j] != '/' {
        assert p[j] == b[j - 1];
      }
      LastIndexOfAt(p, '/', 0);
    } else {
      assert p == d + "/" + b;
      RelativeSplit(d, b);
    }
  }

  /** Removing a prefix with `replace` leaves the rest of the string. */
  lemma ReplaceFirstOfPrefix(s: string, pat: string)
    requires StartsWith(s, pat)
    ensures ReplaceFirst(s, pat) == s[|pat|..]
  {
    assert s[0..|pat|] == pat;
  }

  /** The extension of a name made of a dot-free stem and an extension is that extension. */
  lemma StemAndExtension(stem: string, ext: string)
    requires stem != "" && '.' !in stem && '/' !in stem
    requires ext == "" || (ext[0] == '.' && '.' !in ext[1..] && '/' !in ext)
    ensures FileName(stem + ext)
    ensures Extname(stem + ext) == ext
    ensures RemoveExtension(stem + ext) == stem
  {
    var n := stem + ext;
    assert '/' !in n by {
      forall i | 0 <= i < |n| ensures n[i] != '/' {
        if i < |stem| { assert n[i] == stem[i]; } else { assert n[i] == ext[i - |stem|]; }
      }
    }
    assert n != "." && n != ".." by {
      assert n[0] == stem[0];
      assert stem[0] in stem;
    }
    LastIndexOfAt(n, '/', -1);
    assert Basename(n) == n;
    if ext == "" {
      assert n == stem;
      RemoveExtensionNoDot(stem);
      assert forall j :: 0 <= j < |n| ==> n[j] != '.' by {
        forall j | 0 <= j < |n| ensures n[j] != '.' { assert n[j] in stem; }
      }
      LastIndexOfAt(n, '.', -1);
    } else {
      forall j | |stem| < j < |n| ensures n[j] != '.' {
        assert n[j] == ext[1..][j - |stem| - 1];
      }
      LastIndexOfAt(n, '.', |stem|);
      assert n[|stem|..] == ext;
      assert n[..|stem|] == stem;
    }
  }

  /** Removing a root from a path that starts with it leaves the rest. */
  lemma PrefixReplaced(root: Path, rest: Path)
    ensures ReplaceFirst(root + rest, root) == rest
  {
    var p := root + rest;
    assert StartsWith(p, root) && p[|root|..] == rest by {
      assert p[..|root|] == root;
    }
    ReplaceFirstOfPrefix(p, root);
  }

  /** A plain name has no folder and is its own base name. */
  lemma PlainNameParts(name: Path)
    requires FileName(name)
    ensures Dirname(name) == "." && Basename(name) == name
  {
    forall j | 0 <= j < |name| ensures name[j] != '/' {
      assert name[j] in name;
    }
    LastIndexOfAt(name, '/', -1);
  }

  /** A relative path of a folder and a name splits back into the two. */
  lemma RelativeSplit(relDir: Path, name: Path)
    requires FileName(name) && relDir != "" && relDir != "." && relDir[|relDir| - 1] != '/'
    ensures Dirname(relDir + "/" + name) == relDir
  {
    var rest := relDir + "/" + name;
    forall j | |relDir| < j < |rest| ensures rest[j] != '/' {
      assert rest[j] == name[j - |relDir| - 1];
    }
    LastIndexOfAt(rest, '/', |relDir|);
    assert rest[..|relDir|] == relDir;
  }

  /** A segment joined onto a folder that does not end in '/' gets one '/' in between. */
  lemma JoinPlain(a: Path, b: Path)
    requires a != "" && a != "." && a[|a| - 1] != '/' && b != "" && b != "."
    ensures Join(a, b) == a + "/" + b
  {
  }

  /** The path below a root, written in two ways. */
  lemma Regroup(root: Path, relDir: Path, name: Path)
    ensures root + relDir + "/" + name == root + (relDir + "/" + name)
  {
  }

  /** No '.' directly followed by '/': a path `path.join` has left without `./` in it. */
  predicate NoDotSlash(p: Path) {
    |p| < 2 || (!(p[0] == '.' && p[1] == '/') && NoDotSlash(p[1..]))
  }

  /** A pattern starting with `./` is not found in a path without `./`, so nothing is removed. */
  lemma ReplaceFirstMissesDotSlash(s: string, pat: string)
    requires NoDotSlash(s) && |pat| >= 2 && pat[0] == '.' && pat[1] == '/'
    ensures ReplaceFirst(s, pat) == s
  {
    assert s[0..] == s;
    IndexOfDotSlash(s, pat, 0);
  }

  lemma {:induction false} IndexOfDotSlash(s: string, pat: string, from: nat)
    requires from <= |s| && NoDotSlash(s[from..]) && |pat| >= 2 && pat[0] == '.' && pat[1] == '/'
    ensures IndexOfFrom(s, pat, from) == -1
    decreases |s| - from
  {
    if |s| - from >= |pat| {
      assert s[from..from + |pat|][0] == s[from..][0] && s[from..from + |pat|][1] == s[from..][1];
      assert s[from..][1..] == s[from + 1..];
      IndexOfDotSlash(s, pat, from + 1);
    }
  }
}
