/**
 * Path handling of file_manager.py: the stem and parent-folder labels of an
 * audio file (get_file_info) and the mirrored output path (get_output_path).
 *
 * A path is the sequence of its components: "in/a/x.wav" is ["in", "a", "x.wav"].
 * Joining paths is concatenation, os.path.basename is the last component and
 * os.path.dirname is everything before it.
 *
 * This module, DirectoryWalker (find_wav_files) and FileStore (save_text)
 * together model the class FileManager of file_manager.py; this one covers
 * its get_file_info and get_output_path methods.
 */
module PathMapper {
  import opened Wrappers

  type Path = seq<string>

  /** os.path.basename: the last component, or "" for the empty path. */
  function Basename(p: Path): string
  {
    if p == [] then "" else p[|p| - 1]
  }

  /** os.path.dirname: the path without its last component. */
  function Dirname(p: Path): Path
  {
    if p == [] then [] else p[..|p| - 1]
  }

  lemma DirnameBasename(p: Path)
    requires p != []
    ensures Dirname(p) + [Basename(p)] == p
  {
  }

  predicate IsPrefix(root: Path, p: Path)
  {
    |root| <= |p| && p[..|root|] == root
  }

  /** os.path.relpath(p, root) for a p that lies under root. */
  function RelPath(p: Path, root: Path): (r: Path)
    requires IsPrefix(root, p)
    ensures root + r == p
  {
    p[|root|..]
  }

  /** The index of the last '.' in s, if there is one. */
  function LastDot(s: string): (r: Option<nat>)
    ensures r.None? <==> '.' !in s
    ensures r.Some? ==> r.value < |s| && s[r.value] == '.' && '.' !in s[r.value + 1..]
  {
    if s == [] then None
    else if s[|s| - 1] == '.' then Some(|s| - 1)
    else
      var r := LastDot(s[..|s| - 1]);
      assert s == s[..|s| - 1] + [s[|s| - 1]];
      r
  }

  predicate HasNonDot(s: string)
  {
    exists i :: 0 <= i < |s| && s[i] != '.'
  }

  /**
   * os.path.splitext on a single name: the extension runs from the last dot
   * to the end, unless every character before that dot is itself a dot (a
   * hidden file such as ".wav" has no extension).
   */
  function SplitExt(name: string): (r: (string, string))
    ensures r.0 + r.1 == name
    ensures r.1 == [] || (r.1[0] == '.' && '.' !in r.1[1..] && HasNonDot(r.0))
    ensures r.1 == [] ==> forall i :: 0 <= i < |name| && name[i] == '.' ==> !HasNonDot(name[..i])
  {
    match LastDot(name)
    case None => (name, "")
    case Some(d) =>
      if HasNonDot(name[..d]) then
        assert name[..d] + name[d..] == name;
        (name[..d], name[d..])
      else
        assert forall i :: d < i < |name| ==> name[i] != '.' by {
          forall i | d < i < |name| ensures name[i] != '.' {
            assert name[i] == name[d + 1..][i - d - 1];
          }
        }
        PrefixWithoutNonDot(name, d);
        (name, "")
  }

  lemma PrefixWithoutNonDot(s: string, d: nat)
    requires d <= |s| && !HasNonDot(s[..d])
    ensures forall i :: 0 <= i <= d ==> !HasNonDot(s[..i])
  {
    forall i, j | 0 <= j < i <= d ensures s[..i][j] == '.' {
      assert s[..i][j] == s[..d][j];
    }
  }

  /** The file name without its final extension. */
  function Stem(name: string): string
  {
    SplitExt(name).0
  }

  /**
   * FileManager.get_file_info: the stem of the file name and the name of the
   * folder that holds the file.
   */
  function GetFileInfo(filePath: Path): (info: (string, string))
    ensures filePath != [] ==> Dirname(filePath) + [Basename(filePath)] == filePath
    ensures info.0 + SplitExt(Basename(filePath)).1 == Basename(filePath)
    ensures Dirname(filePath) != [] ==> info.1 == filePath[|filePath| - 2]
    ensures Dirname(filePath) == [] ==> info.1 == ""
  {
    (Stem(Basename(filePath)), Basename(Dirname(filePath)))
  }

  /**
   * FileManager.get_output_path: the input file's folder, taken relative to
   * the input root, re-rooted under the output root, with the file's
   * extension replaced by ".txt".
   */
  function OutputPath(inputPath: Path, inputRoot: Path, outputRoot: Path): (r: Path)
    requires IsPrefix(inputRoot, Dirname(inputPath))
    ensures r != [] && Basename(r) == GetFileInfo(inputPath).0 + ".txt"
    ensures IsPrefix(outputRoot, Dirname(r))
    ensures inputRoot + RelPath(Dirname(r), outputRoot) == Dirname(inputPath)
  {
    var outputDir := outputRoot + RelPath(Dirname(inputPath), inputRoot);
    var r := outputDir + [Stem(Basename(inputPath)) + ".txt"];
    assert Dirname(r) == outputDir;
    r
  }

  /**
   * Two inputs under the same root share an output file exactly when they sit
   * in the same folder and have the same stem.
   */
  lemma OutputPathCollision(a: Path, b: Path, inputRoot: Path, outputRoot: Path)
    requires IsPrefix(inputRoot, Dirname(a)) && IsPrefix(inputRoot, Dirname(b))
    ensures OutputPath(a, inputRoot, outputRoot) == OutputPath(b, inputRoot, outputRoot)
        <==> Dirname(a) == Dirname(b) && Stem(Basename(a)) == Stem(Basename(b))
  {
    var ra, rb := OutputPath(a, inputRoot, outputRoot), OutputPath(b, inputRoot, outputRoot);
    if ra == rb {
      var sa, sb := Stem(Basename(a)), Stem(Basename(b));
      assert Basename(ra) == sa + ".txt" && Basename(rb) == sb + ".txt";
      assert sa == (sa + ".txt")[..|sa|];
      assert sb == (sb + ".txt")[..|sb|];
    } else {
      if Dirname(a) == Dirname(b) && Stem(Basename(a)) == Stem(Basename(b)) {
        assert false;
      }
    }
  }

  /**
   * Scenario with two clips of the same name in different folders: they map
   * to two different output files.
   */
  lemma SameStemDifferentFolders(a: Path, b: Path, inputRoot: Path, outputRoot: Path)
    requires IsPrefix(inputRoot, Dirname(a)) && IsPrefix(inputRoot, Dirname(b))
    requires Dirname(a) != Dirname(b)
    ensures OutputPath(a, inputRoot, outputRoot) != OutputPath(b, inputRoot, outputRoot)
  {
    OutputPathCollision(a, b, inputRoot, outputRoot);
  }
}
