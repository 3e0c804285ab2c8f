/**
 * Discovery of audio files in file_manager.py (find_wav_files).
 *
 * A directory tree is an Entry; a directory lists its entries in the order
 * the operating system reports them, which the source does not sort, so that
 * order is an input here, never a sorted one. os.walk is modelled as the
 * function Walk, which produces the same (folder, sub-folder names, file
 * names) steps in the same top-down order.
 *
 * This is the find_wav_files method of the class FileManager, whose other
 * methods are modelled in PathMapper and FileStore.
 */
module DirectoryWalker {
  import opened Wrappers
  import opened PathMapper

  /** A directory entry as the operating system lists it. */
  datatype Entry =
    | File(name: string)                      // a regular file
    | Special(name: string)                   // neither a regular file nor a directory: a dangling link, a socket, a pipe
    | Dir(name: string, entries: seq<Entry>)  // a directory and its listing

  predicate DistinctNames(es: seq<Entry>)
  {
    forall i, j :: 0 <= i < j < |es| ==> es[i].name != es[j].name
  }

  /** A real file system never lists one name twice in a directory. */
  predicate WellFormed(e: Entry)
    decreases e
  {
    e.Dir? ==>
      DistinctNames(e.entries) &&
      forall i :: 0 <= i < |e.entries| ==> WellFormed(e.entries[i])
  }

  // ---------------------------------------------------------------------
  // Names
  // ---------------------------------------------------------------------

  /** str.lower on one character, restricted to ASCII. */
  function LowerChar(c: char): (r: char)
    ensures r == '.' <==> c == '.'
    ensures r == 'w' <==> c == 'w' || c == 'W'
    ensures r == 'a' <==> c == 'a' || c == 'A'
    ensures r == 'v' <==> c == 'v' || c == 'V'
  {
    if 'A' <= c <= 'Z' then (c as int + 32) as char else c
  }

  function Lower(s: string): (r: string)
    ensures |r| == |s|
  {
    seq(|s|, i requires 0 <= i < |s| => LowerChar(s[i]))
  }

  predicate EndsWith(s: string, suffix: string)
  {
    |suffix| <= |s| && s[|s| - |suffix|..] == suffix
  }

  /** name.lower().endswith(".wav") */
  predicate IsWavName(name: string)
    ensures IsWavName(name) ==> |name| >= 4 && name[|name| - 4] == '.'
  {
    var lower := Lower(name);
    var wav := EndsWith(lower, ".wav");
    assert wav ==> lower[|name| - 4] == lower[|name| - 4..][0] == '.';
    assert wav ==> lower[|name| - 4] == LowerChar(name[|name| - 4]);
    wav
  }

  /** What the lower-cased test accepts: the last four characters spell ".wav" in any case. */
  lemma WavNameShape(name: string)
    ensures IsWavName(name) <==>
      |name| >= 4 && name[|name| - 4] == '.' &&
      name[|name| - 3] in "wW" && name[|name| - 2] in "aA" && name[|name| - 1] in "vV"
  {
    if |name| >= 4 {
      var n := |name|;
      var tail := Lower(name)[n - 4..];
      assert tail[0] == LowerChar(name[n - 4]) && tail[1] == LowerChar(name[n - 3]);
      assert tail[2] == LowerChar(name[n - 2]) && tail[3] == LowerChar(name[n - 1]);
    }
  }

  /**
   * The stem of a discovered file: the name without its last four
   * characters, except for a name such as ".wav" whose only dots lead it,
   * which splitext leaves whole.
   */
  lemma WavStem(name: string)
    requires IsWavName(name)
    ensures HasNonDot(name[..|name| - 4]) ==> Stem(name) == name[..|name| - 4]
    ensures !HasNonDot(name[..|name| - 4]) ==> Stem(name) == name
  {
    WavNameShape(name);
    var n := |name|;
    var d := LastDot(name);
    assert name[n - 4] == '.';
    assert d.Some?;
    var i := d.value;
    assert forall k :: i < k < n ==> name[k] != '.' by {
      forall k | i < k < n ensures name[k] != '.' {
        assert name[k] == name[i + 1..][k - i - 1];
      }
    }
    assert i == n - 4;
  }

  // ---------------------------------------------------------------------
  // os.walk
  // ---------------------------------------------------------------------

  /** One step of os.walk: a folder, the names of its sub-folders and of its other entries. */
  datatype WalkStep = WalkStep(dirPath: Path, dirNames: seq<string>, fileNames: seq<string>)

  function DirNames(es: seq<Entry>): seq<string>
  {
    if es == [] then [] else (if es[0].Dir? then [es[0].name] else []) + DirNames(es[1..])
  }

  /** os.walk puts every entry that is not a directory under the file names. */
  function FileNames(es: seq<Entry>): seq<string>
  {
    if es == [] then [] else (if !es[0].Dir? then [es[0].name] else []) + FileNames(es[1..])
  }

  /** os.walk(path) over the directory d found at path, top-down. */
  function Walk(path: Path, d: Entry): (r: seq<WalkStep>)
    requires d.Dir?
    ensures r != [] && r[0] == WalkStep(path, DirNames(d.entries), FileNames(d.entries))
    ensures forall i :: 0 <= i < |r| ==> IsPrefix(path, r[i].dirPath)
    decreases d, 1, 0
  {
    [WalkStep(path, DirNames(d.entries), FileNames(d.entries))] + WalkFrom(path, d, 0)
  }

  /** The walks of d's sub-folders from its k-th entry on, in listing order. */
  function WalkFrom(path: Path, d: Entry, k: nat): (r: seq<WalkStep>)
    requires d.Dir? && k <= |d.entries|
    ensures forall i :: 0 <= i < |r| ==> |r[i].dirPath| > |path| && IsPrefix(path, r[i].dirPath)
    decreases d, 0, |d.entries| - k
  {
    if k == |d.entries| then []
    else
      var c := d.entries[k];
      var sub := if c.Dir? then Walk(path + [c.name], c) else [];
      var rest := WalkFrom(path, d, k + 1);
      assert forall i :: 0 <= i < |sub| ==> |sub[i].dirPath| > |path| && IsPrefix(path, sub[i].dirPath) by {
        forall i | 0 <= i < |sub| ensures |sub[i].dirPath| > |path| && IsPrefix(path, sub[i].dirPath) {
          var q := sub[i].dirPath;
          assert q[..|path|] == q[..|path| + 1][..|path|];
        }
      }
      sub + rest
  }

  // ---------------------------------------------------------------------
  // What find_wav_files collects
  // ---------------------------------------------------------------------

  /** The inner loop's contribution: folder + name for every wav name, in order. */
  function Hits(dir: Path, names: seq<string>): seq<Path>
  {
    if names == [] then []
    else
      var last := names[|names| - 1];
      Hits(dir, names[..|names| - 1]) + (if IsWavName(last) then [dir + [last]] else [])
  }

  /** The outer loop's result over a prefix of the walk. */
  function Collect(steps: seq<WalkStep>): seq<Path>
  {
    if steps == [] then []
    else
      var last := steps[|steps| - 1];
      Collect(steps[..|steps| - 1]) + Hits(last.dirPath, last.fileNames)
  }

  /** The wav files under directory d at path, in os.walk order. */
  function WavPaths(path: Path, d: Entry): seq<Path>
    requires d.Dir?
    decreases d, 1
  {
    Hits(path, FileNames(d.entries)) + WavPathsFrom(path, d, 0)
  }

  function WavPathsFrom(path: Path, d: Entry, k: nat): seq<Path>
    requires d.Dir? && k <= |d.entries|
    decreases d, 0, |d.entries| - k
  {
    if k == |d.entries| then []
    else
      var c := d.entries[k];
      (if c.Dir? then WavPaths(path + [c.name], c) else []) + WavPathsFrom(path, d, k + 1)
  }

  /** find_wav_files on a root that may be missing: os.walk yields nothing unless it is a directory. */
  function Discovered(directory: Path, top: Option<Entry>): seq<Path>
  {
    if top.Some? && top.value.Dir? then WavPaths(directory, top.value) else []
  }

  /**
   * FileManager.find_wav_files: the nested loops over os.walk, appending
   * every file whose lower-cased name ends in ".wav". What the result
   * holds is stated by DiscoveredSpec.
   */
  method FindWavFiles(directory: Path, top: Option<Entry>) returns (wavFiles: seq<Path>)
    ensures wavFiles == Discovered(directory, top)
  {
    var steps := if top.Some? && top.value.Dir? then Walk(directory, top.value) else [];
    wavFiles := CollectWavFiles(steps);
    if top.Some? && top.value.Dir? {
      WalkCollect(directory, top.value);
    }
  }

  /** The loops of find_wav_files over what os.walk yields: every wav name, joined to its folder, in order. */
  method CollectWavFiles(steps: seq<WalkStep>) returns (wavFiles: seq<Path>)
    ensures wavFiles == Collect(steps)
  {
    wavFiles := [];
    for i := 0 to |steps|
      invariant wavFiles == Collect(steps[..i])
    {
      var step := steps[i];
      for j := 0 to |step.fileNames|
        invariant wavFiles == Collect(steps[..i]) + Hits(step.dirPath, step.fileNames[..j])
      {
        var file := step.fileNames[j];
        HitsSnoc(step.dirPath, step.fileNames, j);
        if IsWavName(file) {
          wavFiles := wavFiles + [step.dirPath + [file]];
        }
      }
      assert step.fileNames[..|step.fileNames|] == step.fileNames;
      CollectSnoc(steps, i);
    }
    assert steps[..|steps|] == steps;
  }

  lemma HitsSnoc(dir: Path, names: seq<string>, j: nat)
    requires j < |names|
    ensures Hits(dir, names[..j + 1]) == Hits(dir, names[..j]) + (if IsWavName(names[j]) then [dir + [names[j]]] else [])
  {
    assert names[..j + 1][..j] == names[..j];
  }

  lemma CollectSnoc(steps: seq<WalkStep>, i: nat)
    requires i < |steps|
    ensures Collect(steps[..i + 1]) == Collect(steps[..i]) + Hits(steps[i].dirPath, steps[i].fileNames)
  {
    assert steps[..i + 1][..i] == steps[..i];
  }

  /**
   * What find_wav_files promises: only paths below the directory with wav
   * names, each naming a wav file of the tree, and every such file exactly
   * once.
   */
  lemma DiscoveredSpec(directory: Path, top: Option<Entry>)
    ensures top.None? || !top.value.Dir? ==> Discovered(directory, top) == []
    ensures forall p :: p in Discovered(directory, top) ==>
      IsPrefix(directory, p) && |p| > |directory| && IsWavName(Basename(p))
    ensures top.Some? && WellFormed(top.value) ==>
      forall p :: p in Discovered(directory, top) ==> IsWavFileAt(top.value, p[|directory|..])
    ensures top.Some? && WellFormed(top.value) ==>
      forall rel :: IsWavFileAt(top.value, rel) ==> multiset(Discovered(directory, top))[directory + rel] == 1
  {
    if top.Some? && top.value.Dir? {
      var d := top.value;
      var found := WavPaths(directory, d);
      forall p | p in found
        ensures IsPrefix(directory, p) && |p| > |directory| && IsWavName(Basename(p))
      {
        WavPathsUnder(directory, d, p);
      }
      if WellFormed(d) {
        forall p | p in found ensures IsWavFileAt(d, p[|directory|..]) {
          WavPathsSound(directory, d, p);
        }
        WavPathsNoDup(directory, d);
        forall rel | IsWavFileAt(d, rel) ensures multiset(found)[directory + rel] == 1 {
          WavPathsComplete(directory, d, rel);
          NoDupOnce(found, directory + rel);
        }
      }
    }
  }

  // ---------------------------------------------------------------------
  // The independent view: looking a relative path up in the tree
  // ---------------------------------------------------------------------

  /** The index of the first entry called name. */
  function Find(es: seq<Entry>, name: string): (r: Option<nat>)
    ensures r.Some? ==> r.value < |es| && es[r.value].name == name &&
                        forall j :: 0 <= j < r.value ==> es[j].name != name
    ensures r.None? ==> forall j :: 0 <= j < |es| ==> es[j].name != name
  {
    if es == [] then None
    else if es[0].name == name then Some(0)
    else
      match Find(es[1..], name)
      case None => None
      case Some(i) => Some(i + 1)
  }

  lemma FindDistinct(es: seq<Entry>, k: nat)
    requires DistinctNames(es) && k < |es|
    ensures Find(es, es[k].name) == Some(k)
  {
  }

  /** The entry reached from directory d by following the names in rel. */
  function Lookup(d: Entry, rel: seq<string>): (r: Option<Entry>)
    requires d.Dir? && rel != []
    ensures r.Some? ==> r.value.name == rel[|rel| - 1]
    decreases d
  {
    match Find(d.entries, rel[0])
    case None => None
    case Some(k) =>
      var c := d.entries[k];
      if |rel| == 1 then Some(c)
      else if c.Dir? then Lookup(c, rel[1..])
      else None
  }

  /** Looking a path up goes through the entry named by its first component. */
  lemma LookupChild(d: Entry, k: nat, rel: seq<string>)
    requires d.Dir? && DistinctNames(d.entries) && k < |d.entries|
    requires rel != [] && rel[0] == d.entries[k].name
    ensures |rel| == 1 ==> Lookup(d, rel) == Some(d.entries[k])
    ensures |rel| > 1 && d.entries[k].Dir? ==> Lookup(d, rel) == Lookup(d.entries[k], rel[1..])
  {
    FindDistinct(d.entries, k);
  }

  /** rel names an entry under d that is not a directory and whose name passes the wav test. */
  predicate IsWavFileAt(d: Entry, rel: seq<string>)
  {
    d.Dir? && rel != [] &&
    var e := Lookup(d, rel);
    e.Some? && !e.value.Dir? && IsWavName(e.value.name)
  }

  // ---------------------------------------------------------------------
  // Lemmas
  // ---------------------------------------------------------------------

  lemma CollectAppend(a: seq<WalkStep>, b: seq<WalkStep>)
    ensures Collect(a + b) == Collect(a) + Collect(b)
    decreases |b|
  {
    if b != [] {
      var ab := a + b;
      assert ab[..|ab| - 1] == a + b[..|b| - 1];
      CollectAppend(a, b[..|b| - 1]);
    } else {
      assert a + b == a;
    }
  }

  /** Collecting the hits of os.walk's steps is WavPaths. */
  lemma WalkCollect(path: Path, d: Entry)
    requires d.Dir?
    ensures Collect(Walk(path, d)) == WavPaths(path, d)
    decreases d, 1
  {
    var s := WalkStep(path, DirNames(d.entries), FileNames(d.entries));
    var rest := WalkFrom(path, d, 0);
    assert Walk(path, d) == [s] + rest;
    CollectAppend([s], rest);
    assert [s][..0] == [];
    assert Collect([s]) == Hits(path, FileNames(d.entries));
    WalkFromCollect(path, d, 0);
  }

  lemma WalkFromCollect(path: Path, d: Entry, k: nat)
    requires d.Dir? && k <= |d.entries|
    ensures Collect(WalkFrom(path, d, k)) == WavPathsFrom(path, d, k)
    decreases d, 0, |d.entries| - k
  {
    if k < |d.entries| {
      var c := d.entries[k];
      var first := if c.Dir? then Walk(path + [c.name], c) else [];
      CollectAppend(first, WalkFrom(path, d, k + 1));
      if c.Dir? { WalkCollect(path + [c.name], c); }
      WalkFromCollect(path, d, k + 1);
    }
  }

  lemma HitsMember(dir: Path, names: seq<string>, p: Path)
    ensures p in Hits(dir, names) <==>
      |p| == |dir| + 1 && p[..|dir|] == dir && p[|dir|] in names && IsWavName(p[|dir|])
    decreases |names|
  {
    if names != [] {
      var init, last := names[..|names| - 1], names[|names| - 1];
      HitsMember(dir, init, p);
      assert names == init + [last];
      if |p| == |dir| + 1 && p[..|dir|] == dir && p[|dir|] == last {
        assert p == dir + [last];
      }
    }
  }

  lemma FileNamesMember(es: seq<Entry>, n: string)
    ensures n in FileNames(es) <==> exists k :: 0 <= k < |es| && !es[k].Dir? && es[k].name == n
  {
    if es != [] {
      FileNamesMember(es[1..], n);
      if exists k :: 0 <= k < |es| && !es[k].Dir? && es[k].name == n {
        var k :| 0 <= k < |es| && !es[k].Dir? && es[k].name == n;
        if k > 0 { assert es[1..][k - 1] == es[k]; }
      }
      if exists k :: 0 <= k < |es| - 1 && !es[1..][k].Dir? && es[1..][k].name == n {
        var k :| 0 <= k < |es| - 1 && !es[1..][k].Dir? && es[1..][k].name == n;
        assert es[k + 1] == es[1..][k];
      }
    }
  }

  /** Every collected path lies under the walked folder and names a wav file. */
  lemma WavPathsUnder(path: Path, d: Entry, p: Path)
    requires d.Dir? && p in WavPaths(path, d)
    ensures |p| > |path| && p[..|path|] == path && IsWavName(Basename(p))
    decreases d, 1
  {
    if p in Hits(path, FileNames(d.entries)) {
      HitsMember(path, FileNames(d.entries), p);
    } else {
      WavPathsFromUnder(path, d, 0, p);
    }
  }

  lemma WavPathsFromUnder(path: Path, d: Entry, k: nat, p: Path)
    requires d.Dir? && k <= |d.entries| && p in WavPathsFrom(path, d, k)
    ensures |p| > |path| + 1 && p[..|path|] == path && IsWavName(Basename(p))
    ensures exists j :: k <= j < |d.entries| && d.entries[j].Dir? && p[|path|] == d.entries[j].name
    decreases d, 0, |d.entries| - k
  {
    var c := d.entries[k];
    if c.Dir? && p in WavPaths(path + [c.name], c) {
      WavPathsUnder(path + [c.name], c, p);
      assert p[..|path| + 1][..|path|] == p[..|path|];
      assert p[|path|] == (path + [c.name])[|path|];
    } else {
      WavPathsFromUnder(path, d, k + 1, p);
    }
  }

  /** Soundness: each collected path names a wav file of the tree. */
  lemma WavPathsSound(path: Path, d: Entry, p: Path)
    requires d.Dir? && WellFormed(d) && p in WavPaths(path, d)
    ensures IsPrefix(path, p) && IsWavFileAt(d, p[|path|..])
    decreases d, 1
  {
    var es := d.entries;
    if p in Hits(path, FileNames(es)) {
      HitsMember(path, FileNames(es), p);
      var n := p[|path|];
      FileNamesMember(es, n);
      var k :| 0 <= k < |es| && !es[k].Dir? && es[k].name == n;
      FindDistinct(es, k);
      assert p[|path|..] == [n];
    } else {
      WavPathsFromSound(path, d, 0, p);
    }
  }

  lemma WavPathsFromSound(path: Path, d: Entry, k: nat, p: Path)
    requires d.Dir? && WellFormed(d) && k <= |d.entries| && p in WavPathsFrom(path, d, k)
    ensures IsPrefix(path, p) && IsWavFileAt(d, p[|path|..])
    decreases d, 0, |d.entries| - k
  {
    var c := d.entries[k];
    if c.Dir? && p in WavPaths(path + [c.name], c) {
      WavPathsSound(path + [c.name], c, p);
      WavFileInChild(path, d, k, p);
    } else {
      WavPathsFromSound(path, d, k + 1, p);
    }
  }

  /** A wav file found under the k-th entry of d, a folder, is a wav file of d. */
  lemma WavFileInChild(path: Path, d: Entry, k: nat, p: Path)
    requires d.Dir? && DistinctNames(d.entries) && k < |d.entries| && d.entries[k].Dir?
    requires IsPrefix(path + [d.entries[k].name], p) && IsWavFileAt(d.entries[k], p[|path| + 1..])
    ensures IsPrefix(path, p) && IsWavFileAt(d, p[|path|..])
  {
    var sub := path + [d.entries[k].name];
    var rel := p[|path|..];
    assert p[..|path|] == sub[..|path|];
    assert rel[0] == p[|path|] == sub[|path|];
    assert rel[1..] == p[|sub|..];
    LookupChild(d, k, rel);
  }

  lemma WavPathsFromContains(path: Path, d: Entry, j: nat, k: nat, p: Path)
    requires d.Dir? && j <= k < |d.entries| && d.entries[k].Dir?
    requires p in WavPaths(path + [d.entries[k].name], d.entries[k])
    ensures p in WavPathsFrom(path, d, j)
    decreases k - j
  {
    if j < k { WavPathsFromContains(path, d, j + 1, k, p); }
  }

  /** Completeness: every wav file of the tree is collected. */
  lemma WavPathsComplete(path: Path, d: Entry, rel: seq<string>)
    requires IsWavFileAt(d, rel)
    ensures path + rel in WavPaths(path, d)
    decreases d
  {
    var es := d.entries;
    var k := Find(es, rel[0]).value;
    var c := es[k];
    if |rel| == 1 {
      FileNamesMember(es, rel[0]);
      HitsMember(path, FileNames(es), path + rel);
    } else {
      WavPathsComplete(path + [c.name], c, rel[1..]);
      assert (path + [c.name]) + rel[1..] == path + rel;
      WavPathsFromContains(path, d, 0, k, path + rel);
    }
  }

  // ---------------------------------------------------------------------
  // No path is collected twice
  // ---------------------------------------------------------------------

  ghost predicate NoDup<T>(s: seq<T>)
  {
    forall i, j :: 0 <= i < j < |s| ==> s[i] != s[j]
  }

  lemma NoDupAppend<T>(a: seq<T>, b: seq<T>)
    requires NoDup(a) && NoDup(b)
    requires forall x :: x in a ==> x !in b
    ensures NoDup(a + b)
  {
    forall i, j | 0 <= i < j < |a + b| ensures (a + b)[i] != (a + b)[j] {
      if i < |a| && j >= |a| {
        assert (a + b)[i] in a && (a + b)[j] == b[j - |a|];
      }
    }
  }

  /** In a list without repetitions every member occurs exactly once. */
  lemma NoDupOnce<T>(s: seq<T>, x: T)
    requires NoDup(s) && x in s
    ensures multiset(s)[x] == 1
  {
    assert s == [s[0]] + s[1..];
    if x == s[0] {
      assert x !in s[1..] by {
        forall i | 0 <= i < |s| - 1 ensures s[1..][i] != x { assert s[1..][i] == s[i + 1]; }
      }
    } else {
      NoDupOnce(s[1..], x);
    }
  }

  lemma FileNamesNoDup(es: seq<Entry>)
    requires DistinctNames(es)
    ensures NoDup(FileNames(es))
  {
    if es != [] {
      FileNamesNoDup(es[1..]);
      FileNamesMember(es[1..], es[0].name);
      NoDupAppend(if !es[0].Dir? then [es[0].name] else [], FileNames(es[1..]));
    }
  }

  lemma HitsNoDup(dir: Path, names: seq<string>)
    requires NoDup(names)
    ensures NoDup(Hits(dir, names))
    decreases |names|
  {
    if names != [] {
      var init, last := names[..|names| - 1], names[|names| - 1];
      HitsNoDup(dir, init);
      HitsMember(dir, init, dir + [last]);
      assert last !in init;
      NoDupAppend(Hits(dir, init), if IsWavName(last) then [dir + [last]] else []);
    }
  }

  lemma WavPathsNoDup(path: Path, d: Entry)
    requires d.Dir? && WellFormed(d)
    ensures NoDup(WavPaths(path, d))
    decreases d, 1
  {
    FileNamesNoDup(d.entries);
    HitsNoDup(path, FileNames(d.entries));
    WavPathsFromNoDup(path, d, 0);
    forall p | p in Hits(path, FileNames(d.entries)) ensures |p| == |path| + 1 {
      HitsMember(path, FileNames(d.entries), p);
    }
    forall q | q in WavPathsFrom(path, d, 0) ensures |q| > |path| + 1 {
      WavPathsFromUnder(path, d, 0, q);
    }
    NoDupAppend(Hits(path, FileNames(d.entries)), WavPathsFrom(path, d, 0));
  }

  lemma WavPathsFromNoDup(path: Path, d: Entry, k: nat)
    requires d.Dir? && WellFormed(d) && k <= |d.entries|
    ensures NoDup(WavPathsFrom(path, d, k))
    decreases d, 0, |d.entries| - k
  {
    if k < |d.entries| {
      var c := d.entries[k];
      var first := if c.Dir? then WavPaths(path + [c.name], c) else [];
      if c.Dir? { WavPathsNoDup(path + [c.name], c); }
      WavPathsFromNoDup(path, d, k + 1);
      forall q | q in WavPathsFrom(path, d, k + 1) ensures |q| > |path| && q[|path|] != c.name {
        WavPathsFromUnder(path, d, k + 1, q);
        var j :| k + 1 <= j < |d.entries| && d.entries[j].Dir? && q[|path|] == d.entries[j].name;
        assert d.entries[k].name != d.entries[j].name;
      }
      forall p | p in first ensures |p| > |path| && p[|path|] == c.name {
        WavPathsUnder(path + [c.name], c, p);
        assert p[|path|] == (path + [c.name])[|path|];
      }
      NoDupAppend(first, WavPathsFrom(path, d, k + 1));
    }
  }

  /** A well-formed tree without any wav file yields nothing. */
  lemma NoWavFilesNothingFound(directory: Path, top: Option<Entry>)
    requires top.Some? ==> WellFormed(top.value) && forall rel :: !IsWavFileAt(top.value, rel)
    ensures Discovered(directory, top) == []
  {
    if top.Some? && top.value.Dir? && Discovered(directory, top) != [] {
      var p := Discovered(directory, top)[0];
      WavPathsSound(directory, top.value, p);
    }
  }
}
