/** Collision-free naming of downloaded files: the numbered variant used
    when a target file already exists, and the renaming of a finished
    `.part` file. The filesystem is the set of paths that exist. */
module FileNaming {
  import opened Text
  import opened Collections

  /** The last index of `c` in `s`, or -1. */
  function RFind(s: string, c: char): (i: int)
    ensures -1 <= i < |s|
    ensures i >= 0 ==> s[i] == c && c !in s[i + 1..]
    ensures i == -1 ==> c !in s
    decreases |s|
  {
    if |s| == 0 then -1
    else if s[|s| - 1] == c then |s| - 1
    else
      assert s == s[..|s| - 1] + [s[|s| - 1]];
      RFind(s[..|s| - 1], c)
  }

  /** A path as a directory and a final component. */
  datatype Path = Path(parent: string, name: string)

  /** `PurePath.suffix`: the name from its last dot, when that dot is
      neither the first nor the last character. */
  function Suffix(name: string): string {
    var i := RFind(name, '.');
    if 0 < i < |name| - 1 then name[i..] else ""
  }

  /** `PurePath.stem`: the name without its suffix. */
  function Stem(name: string): string {
    var i := RFind(name, '.');
    if 0 < i < |name| - 1 then name[..i] else name
  }

  lemma StemSuffix(name: string)
    ensures Stem(name) + Suffix(name) == name
  {
  }

  /** `stem (n)suffix` in the same directory. */
  function Numbered(p: Path, n: nat): (r: Path)
    ensures r.parent == p.parent
  {
    Path(p.parent, Stem(p.name) + " (" + NatToString(n) + ")" + Suffix(p.name))
  }

  lemma NumberedInjective(p: Path, a: nat, b: nat)
    requires Numbered(p, a) == Numbered(p, b)
    ensures a == b
  {
    var pre, post := Stem(p.name) + " (", ")" + Suffix(p.name);
    assert Numbered(p, a).name == pre + NatToString(a) + post;
    assert Numbered(p, b).name == pre + NatToString(b) + post;
    Cancel(pre, NatToString(a), NatToString(b), post);
    NatToStringInjective(a, b);
  }

  /** `get_unique_filepath`: a free path is kept; otherwise the least
      numbered variant that is free is chosen. */
  method GetUniqueFilepath(path: Path, existing: set<Path>) returns (r: Path)
    ensures r !in existing
    ensures path !in existing ==> r == path
    ensures path in existing ==>
      exists n :: n >= 1 && r == Numbered(path, n) && forall k :: 1 <= k < n ==> Numbered(path, k) in existing
  {
    if path !in existing {
      return path;
    }
    var counter := 1;
    ghost var tried: set<Path> := {};
    while true
      invariant counter >= 1
      invariant tried <= existing && |tried| == counter - 1
      invariant forall k :: 1 <= k < counter ==> Numbered(path, k) in existing
      invariant forall q :: q in tried ==> exists k :: 1 <= k < counter && q == Numbered(path, k)
      decreases |existing| - |tried|
    {
      var newPath := Numbered(path, counter);
      if newPath !in existing {
        return newPath;
      }
      forall q | q in tried
        ensures q != newPath
      {
        var k :| 1 <= k < counter && q == Numbered(path, k);
        if q == newPath {
          NumberedInjective(path, k, counter);
        }
      }
      tried := tried + {newPath};
      SubsetCard(tried, existing);
      counter := counter + 1;
    }
  }

  // ----- the rename at the end of a download -----

  /** The index of a non-dot character in `p[lo..hi]`, if any. */
  predicate HasNonDot(p: string, lo: int, hi: int)
    requires 0 <= lo && hi <= |p|
  {
    exists k :: lo <= k < hi && p[k] != '.'
  }

  /** `os.path.splitext` for POSIX paths: the extension starts at the last
      dot of the last component, unless only dots precede it there. */
  function SplitExt(p: string): (r: (string, string))
    ensures r.0 + r.1 == p
    ensures r.1 == "" || r.1[0] == '.'
    ensures '/' !in r.1
  {
    var sep := RFind(p, '/');
    var dot := RFind(p, '.');
    if dot > sep && HasNonDot(p, sep + 1, dot) then
      assert p[..dot] + p[dot..] == p;
      assert p[dot..][0] == '.';
      assert sep == -1 ==> p[sep + 1..] == p;
      NoCharInLaterSuffix(p, '/', sep + 1, dot);
      (p[..dot], p[dot..])
    else (p, "")
  }

  /** A character missing from a suffix is missing from every shorter one. */
  lemma NoCharInLaterSuffix(p: string, c: char, i: nat, j: nat)
    requires i <= j <= |p| && c !in p[i..]
    ensures c !in p[j..]
  {
    assert p[j..] == p[i..][j - i..];
  }

  /** `base_n` followed by the extension. */
  function Renumbered(base: string, ext: string, n: nat): string {
    base + "_" + NatToString(n) + ext
  }

  lemma RenumberedInjective(base: string, ext: string, a: nat, b: nat)
    requires Renumbered(base, ext, a) == Renumbered(base, ext, b)
    ensures a == b
  {
    Cancel(base + "_", NatToString(a), NatToString(b), ext);
    NatToStringInjective(a, b);
  }

  /** Markers whose presence in the start of a small file marks an error page. */
  const ErrorIndicators: seq<string> := ["<html", "<body", "error", "404", "403", "not found"]

  /** A file under 1024 bytes whose first 500 bytes, lower-cased, contain a marker. */
  predicate IsErrorPage(size: nat, head: string) {
    size < 1024 && ContainsAny(Lower(head), ErrorIndicators)
  }

  /** The path without its `.part` ending. */
  function PartStripped(filePath: string): string {
    if |filePath| >= 5 then filePath[..|filePath| - 5] else filePath
  }

  /** The cases in which the finished file is renamed. */
  predicate Renames(filePath: string, existing: set<string>, size: nat, head: string) {
    IsSuffix(".part", filePath) && filePath in existing && !IsErrorPage(size, head)
  }

  datatype CleanupResult =
    | Kept(path: string)     // not a `.part` file: returned as it is
    | NoFile                 // the `.part` file does not exist: `None`
    | Rejected               // an error page: deleted and reported as a failure
    | Moved(path: string)    // renamed; the new path

  /** `cleanup_download_file`: `size` and `head` are the size and the
      first 500 bytes of the file. Returns the outcome and the set of
      existing paths afterwards. */
  method CleanupDownloadFile(filePath: string, existing: set<string>, size: nat, head: string)
    returns (r: CleanupResult, files: set<string>)
    ensures !IsSuffix(".part", filePath) ==> r == Kept(filePath) && files == existing
    ensures IsSuffix(".part", filePath) && filePath !in existing ==> r == NoFile && files == existing
    ensures IsSuffix(".part", filePath) && filePath in existing && IsErrorPage(size, head) ==>
      r == Rejected && files == existing - {filePath}
    ensures Renames(filePath, existing, size, head) ==>
      r.Moved? && r.path !in existing && files == existing - {filePath} + {r.path}
    ensures Renames(filePath, existing, size, head) && PartStripped(filePath) !in existing ==>
      r == Moved(PartStripped(filePath))
    ensures Renames(filePath, existing, size, head) && PartStripped(filePath) in existing ==>
      var (base, ext) := SplitExt(PartStripped(filePath));
      exists n :: n >= 1 && r == Moved(Renumbered(base, ext, n))
        && forall k :: 1 <= k < n ==> Renumbered(base, ext, k) in existing
  {
    if !IsSuffix(".part", filePath) {
      return Kept(filePath), existing;
    }
    var finalPath := filePath[..|filePath| - 5];
    if filePath !in existing {
      return NoFile, existing;
    }
    if IsErrorPage(size, head) {
      return Rejected, existing - {filePath};
    }
    if finalPath in existing {
      var (base, ext) := SplitExt(finalPath);
      var counter := FirstFreeNumber(base, ext, existing);
      finalPath := Renumbered(base, ext, counter);
    }
    return Moved(finalPath), existing - {filePath} + {finalPath};
  }

  /** The counting loop of `cleanup_download_file`: the first `n >= 1` for
      which `base_n` plus the extension does not exist. */
  method FirstFreeNumber(base: string, ext: string, existing: set<string>) returns (counter: nat)
    ensures counter >= 1 && Renumbered(base, ext, counter) !in existing
    ensures forall k :: 1 <= k < counter ==> Renumbered(base, ext, k) in existing
  {
    counter := 1;
    ghost var tried: set<string> := {};
    while Renumbered(base, ext, counter) in existing
      invariant counter >= 1
      invariant tried <= existing && |tried| == counter - 1
      invariant forall k :: 1 <= k < counter ==> Renumbered(base, ext, k) in existing
      invariant forall q :: q in tried ==> exists k :: 1 <= k < counter && q == Renumbered(base, ext, k)
      decreases |existing| - |tried|
    {
      var candidate := Renumbered(base, ext, counter);
      forall q | q in tried
        ensures q != candidate
      {
        var k :| 1 <= k < counter && q == Renumbered(base, ext, k);
        if q == candidate {
          RenumberedInjective(base, ext, k, counter);
        }
      }
      tried := tried + {candidate};
      SubsetCard(tried, existing);
      counter := counter + 1;
    }
  }
}
