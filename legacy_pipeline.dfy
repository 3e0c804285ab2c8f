/**
 * The function-based pipeline of main.py: processar_arquivo_audio handles
 * one audio file, percorrer_pastas_recursivamente walks the input folder
 * itself and processes every wav file as it meets it, and executar_fluxo
 * starts the walk at the input root.
 *
 * The input root and output root are parameters (INPUT_FOLDER and
 * OUTPUT_FOLDER in config.py); the speech recognizer and the chat service
 * are functions from their inputs to their outcomes.
 */
module LegacyPipeline {
  import opened Wrappers
  import opened PathMapper
  import opened DirectoryWalker
  import opened FileStore
  import opened AudioProcessor
  import opened Rewrite
  import opened Batch

  /** The chat service, asked with (raw text, file stem, folder name). */
  type Chat = (string, string, string) -> ChatReply

  // ---------------------------------------------------------------------
  // One file
  // ---------------------------------------------------------------------

  /**
   * processar_arquivo_audio's handling of the recognizer: the same texts as
   * transcribe_audio, except that any other failure ends the item (None).
   */
  function LegacyTranscript(o: Recognition): (r: Option<string>)
    ensures r.None? <==> o.Failure?
    ensures r.Some? ==> r.value == Transcript(o)
  {
    match o
    case Recognized(text) => Some(text)
    case UnknownValue => Some(Unintelligible)
    case RequestError(_) => Some(Unreachable)
    case Failure(_) => None
  }

  /** output_folder/<stem>.txt */
  function TextFilePath(audioPath: Path, outputFolder: Path): (r: Path)
    ensures r != [] && Dirname(r) == outputFolder
    ensures Basename(r) == GetFileInfo(audioPath).0 + ".txt"
  {
    var r := outputFolder + [Stem(Basename(audioPath)) + ".txt"];
    assert Dirname(r) == outputFolder;
    r
  }

  /** The file contents after processar_arquivo_audio(audioPath, outputFolder). */
  function ProcessedFiles(files: map<Path, string>, unwritable: set<Path>, audioPath: Path, outputFolder: Path,
                          recognize: (Path, string) -> Recognition, chat: Chat): (r: map<Path, string>)
    ensures recognize(audioPath, Language).Failure? || TextFilePath(audioPath, outputFolder) in unwritable ==>
      r == files
    ensures !recognize(audioPath, Language).Failure? && TextFilePath(audioPath, outputFolder) !in unwritable ==>
      var raw, stem, folder := Transcript(recognize(audioPath, Language)), Stem(Basename(audioPath)), Basename(Dirname(audioPath));
      r == files[TextFilePath(audioPath, outputFolder) := RewriteChatGpt(raw, stem, folder, chat(raw, stem, folder))]
  {
    var stem := Stem(Basename(audioPath));
    var folder := Basename(Dirname(audioPath));
    var textPath := TextFilePath(audioPath, outputFolder);
    match LegacyTranscript(recognize(audioPath, "pt-BR"))
    case None => files
    case Some(raw) =>
      var written := Saved(files, unwritable, textPath, raw);
      if textPath in unwritable then written
      else
        var original := written[textPath];
        Saved(written, unwritable, textPath, RewriteChatGpt(original, stem, folder, chat(original, stem, folder)))
  }

  /**
   * processar_arquivo_audio: transcribe, write the raw text, read it back,
   * rewrite it and overwrite the file, returning early when the recognizer
   * fails in an unclassified way or the first write fails.
   */
  method ProcessAudioFile(fs: FileSystem, audioPath: Path, outputFolder: Path,
                          recognize: (Path, string) -> Recognition, chat: Chat)
    modifies fs
    ensures fs.files == ProcessedFiles(old(fs.files), fs.unwritable, audioPath, outputFolder, recognize, chat)
  {
    var baseName := Stem(Basename(audioPath));
    var parentFolder := Basename(Dirname(audioPath));
    var textFilePath := outputFolder + [baseName + ".txt"];
    var raw: string;
    match recognize(audioPath, "pt-BR") {
      case Recognized(text) => raw := text;
      case UnknownValue => raw := Unintelligible;
      case RequestError(_) => raw := Unreachable;
      case Failure(_) => return;
    }
    var ok := fs.Write(textFilePath, raw);
    if !ok {
      return;
    }
    var original := fs.files[textFilePath];
    var rewritten := RewriteChatGpt(original, baseName, parentFolder, chat(original, baseName, parentFolder));
    var _ := fs.Write(textFilePath, rewritten);
  }

  /**
   * Where percorrer_pastas_recursivamente sends the text of the file at
   * INPUT_FOLDER/rel is where AudioTextConverter sends it.
   */
  lemma TextFileIsOutputPath(rel: seq<string>, inputRoot: Path, outputRoot: Path)
    requires rel != []
    ensures IsPrefix(inputRoot, Dirname(inputRoot + rel))
    ensures RelPath(Dirname(inputRoot + rel), inputRoot) == Dirname(rel)
    ensures TextFilePath(inputRoot + rel, outputRoot + Dirname(rel)) == OutputPath(inputRoot + rel, inputRoot, outputRoot)
  {
    assert Dirname(inputRoot + rel) == inputRoot + Dirname(rel);
    assert Basename(inputRoot + rel) == Basename(rel);
  }

  // ---------------------------------------------------------------------
  // The recursive walk
  // ---------------------------------------------------------------------

  /** What one listed entry contributes: itself if it is a regular wav file, the walk below it if it is a folder. */
  function Contribution(dirPath: Path, c: Entry): seq<Path>
    decreases c, 2
  {
    if c.File? && IsWavName(c.name) then [dirPath + [c.name]]
    else if c.Dir? then LegacyOrder(dirPath + [c.name], c)
    else []
  }

  /** The files percorrer_pastas_recursivamente processes under d, in the order it processes them. */
  function LegacyOrder(dirPath: Path, d: Entry): seq<Path>
    requires d.Dir?
    decreases d, 1
  {
    ListedUpTo(dirPath, d, |d.entries|)
  }

  /** The files processed while handling the first k entries of d's listing. */
  function ListedUpTo(dirPath: Path, d: Entry, k: nat): seq<Path>
    requires d.Dir? && k <= |d.entries|
    decreases d, 0, k
  {
    if k == 0 then [] else ListedUpTo(dirPath, d, k - 1) + Contribution(dirPath, d.entries[k - 1])
  }

  lemma ListedUpToMember(dirPath: Path, d: Entry, k: nat, p: Path)
    requires d.Dir? && k <= |d.entries|
    ensures p in ListedUpTo(dirPath, d, k) <==>
      exists j :: 0 <= j < k && p in Contribution(dirPath, d.entries[j])
  {
    if k > 0 { ListedUpToMember(dirPath, d, k - 1, p); }
  }

  /** Everything an entry contributes lies below the entry and has a wav name. */
  lemma ContributionUnder(dirPath: Path, c: Entry, p: Path)
    requires p in Contribution(dirPath, c)
    ensures |p| > |dirPath| && p[..|dirPath|] == dirPath && p[|dirPath|] == c.name && IsWavName(Basename(p))
    decreases c, 2
  {
    if c.Dir? && !(c.File? && IsWavName(c.name)) {
      LegacyOrderUnder(dirPath + [c.name], c, p);
      assert p[..|dirPath|] == p[..|dirPath| + 1][..|dirPath|];
    }
  }

  /** Everything the walk processes lies below its folder and has a wav name. */
  lemma LegacyOrderUnder(dirPath: Path, d: Entry, p: Path)
    requires d.Dir? && p in LegacyOrder(dirPath, d)
    ensures |p| > |dirPath| && p[..|dirPath|] == dirPath && IsWavName(Basename(p))
    decreases d, 1
  {
    ListedUpToMember(dirPath, d, |d.entries|, p);
    var j :| 0 <= j < |d.entries| && p in Contribution(dirPath, d.entries[j]);
    ContributionUnder(dirPath, d.entries[j], p);
  }

  /**
   * The per-file step of the walk: processar_arquivo_audio on the file at
   * INPUT_FOLDER/rel, with its text sent to the matching folder under
   * OUTPUT_FOLDER.
   */
  function LegacyStep(unwritable: set<Path>, inputRoot: Path, outputRoot: Path,
                      recognize: (Path, string) -> Recognition, chat: Chat): (Files, Path) -> Files
  {
    (files: Files, rel: Path) => ProcessedFiles(files, unwritable, inputRoot + rel, outputRoot + Dirname(rel), recognize, chat)
  }

  lemma LegacyStepApplied(unwritable: set<Path>, inputRoot: Path, outputRoot: Path,
                          recognize: (Path, string) -> Recognition, chat: Chat, files: Files, rel: Path)
    ensures LegacyStep(unwritable, inputRoot, outputRoot, recognize, chat)(files, rel)
         == ProcessedFiles(files, unwritable, inputRoot + rel, outputRoot + Dirname(rel), recognize, chat)
  {
  }

  /** processar_arquivo_audio leaves every file alone when the recognizer fails in an unclassified way. */
  lemma LegacyStepSkipsOtherFailure(unwritable: set<Path>, inputRoot: Path, outputRoot: Path,
                                    recognize: (Path, string) -> Recognition, chat: Chat, files: Files, rel: Path)
    requires recognize(inputRoot + rel, Language).Failure?
    ensures LegacyStep(unwritable, inputRoot, outputRoot, recognize, chat)(files, rel) == files
  {
    LegacyStepApplied(unwritable, inputRoot, outputRoot, recognize, chat, files, rel);
  }

  /**
   * The wav-file branch of percorrer_pastas_recursivamente: the file at
   * INPUT_FOLDER/rel goes to OUTPUT_FOLDER joined with the path of its
   * folder relative to INPUT_FOLDER.
   */
  method ProcessFoundFile(fs: FileSystem, inputRoot: Path, rel: Path, outputRoot: Path,
                          recognize: (Path, string) -> Recognition, chat: Chat)
    requires rel != []
    modifies fs
    ensures fs.files == LegacyStep(fs.unwritable, inputRoot, outputRoot, recognize, chat)(old(fs.files), rel)
  {
    var fullPath := inputRoot + rel;
    TextFileIsOutputPath(rel, inputRoot, outputRoot);
    var relative := RelPath(Dirname(fullPath), inputRoot);
    ProcessAudioFile(fs, fullPath, outputRoot + relative, recognize, chat);
    LegacyStepApplied(fs.unwritable, inputRoot, outputRoot, recognize, chat, old(fs.files), rel);
  }

  /**
   * percorrer_pastas_recursivamente on the folder INPUT_FOLDER/relDir, whose
   * listing is d: walk the listing in order; process a regular wav file on
   * the spot, descend into a folder, skip anything else; report whether a
   * wav file was found anywhere below.
   */
  method TraverseFolders(fs: FileSystem, inputRoot: Path, relDir: seq<string>, d: Entry, outputRoot: Path,
                         recognize: (Path, string) -> Recognition, chat: Chat) returns (found: bool)
    requires d.Dir?
    modifies fs
    ensures found <==> LegacyOrder(relDir, d) != []
    ensures fs.files == Fold(old(fs.files), LegacyOrder(relDir, d), LegacyStep(fs.unwritable, inputRoot, outputRoot, recognize, chat))
    decreases d
  {
    ghost var step := LegacyStep(fs.unwritable, inputRoot, outputRoot, recognize, chat);
    found := false;
    for k := 0 to |d.entries|
      invariant found <==> ListedUpTo(relDir, d, k) != []
      invariant fs.files == Fold(old(fs.files), ListedUpTo(relDir, d, k), LegacyStep(fs.unwritable, inputRoot, outputRoot, recognize, chat))
    {
      var item := d.entries[k];
      var done := ListedUpTo(relDir, d, k);
      if item.File? && IsWavName(item.name) {
        var rel := relDir + [item.name];
        ProcessFoundFile(fs, inputRoot, rel, outputRoot, recognize, chat);
        found := true;
        assert ListedUpTo(relDir, d, k + 1) == done + [rel];
        assert (done + [rel])[..|done|] == done;
      } else if item.Dir? {
        var subFound := TraverseFolders(fs, inputRoot, relDir + [item.name], item, outputRoot, recognize, chat);
        assert ListedUpTo(relDir, d, k + 1) == done + LegacyOrder(relDir + [item.name], item);
        FoldAppend(old(fs.files), done, Contribution(relDir, item), step);
        found := found || subFound;
      } else {
        assert ListedUpTo(relDir, d, k + 1) == done + [] == done;
      }
    }
  }

  /**
   * executar_fluxo: walk from the input root. Listing a root that is missing
   * or is not a folder raises, and nothing catches it (None).
   */
  method ExecuteFlow(fs: FileSystem, inputRoot: Path, top: Option<Entry>, outputRoot: Path,
                     recognize: (Path, string) -> Recognition, chat: Chat) returns (found: Option<bool>)
    modifies fs
    ensures top.None? || !top.value.Dir? ==> found.None? && fs.files == old(fs.files)
    ensures top.Some? && top.value.Dir? ==>
      && found == Some(LegacyOrder([], top.value) != [])
      && fs.files == Fold(old(fs.files), LegacyOrder([], top.value), LegacyStep(fs.unwritable, inputRoot, outputRoot, recognize, chat))
  {
    if top.None? || !top.value.Dir? {
      return None;
    }
    var any := TraverseFolders(fs, inputRoot, [], top.value, outputRoot, recognize, chat);
    return Some(any);
  }

  // ---------------------------------------------------------------------
  // What the walk visits
  // ---------------------------------------------------------------------

  /** rel names a regular file under d whose name passes the wav test. */
  predicate IsRegularWavAt(d: Entry, rel: seq<string>)
  {
    d.Dir? && rel != [] &&
    var e := Lookup(d, rel);
    e.Some? && e.value.File? && IsWavName(e.value.name)
  }

  /** Soundness: the walk only processes regular wav files of the tree. */
  lemma LegacyOrderSound(dirPath: Path, d: Entry, p: Path)
    requires d.Dir? && WellFormed(d) && p in LegacyOrder(dirPath, d)
    ensures IsPrefix(dirPath, p) && IsRegularWavAt(d, p[|dirPath|..])
    decreases d
  {
    var es := d.entries;
    ListedUpToMember(dirPath, d, |es|, p);
    var j :| 0 <= j < |es| && p in Contribution(dirPath, es[j]);
    var c := es[j];
    ContributionUnder(dirPath, c, p);
    var rel := p[|dirPath|..];
    LookupChild(d, j, rel);
    if c.File? && IsWavName(c.name) {
      assert rel == [c.name];
    } else {
      var sub := dirPath + [c.name];
      LegacyOrderSound(sub, c, p);
      assert rel[1..] == p[|sub|..];
    }
  }

  /** Completeness: every regular wav file of the tree is processed. */
  lemma LegacyOrderComplete(dirPath: Path, d: Entry, rel: seq<string>)
    requires IsRegularWavAt(d, rel)
    ensures dirPath + rel in LegacyOrder(dirPath, d)
    decreases d
  {
    var es := d.entries;
    var k := Find(es, rel[0]).value;
    var c := es[k];
    if |rel| == 1 {
      assert Lookup(d, rel) == Some(c) && rel == [c.name];
      assert dirPath + rel in Contribution(dirPath, c);
    } else {
      assert c.Dir? && Lookup(d, rel) == Lookup(c, rel[1..]);
      LegacyOrderComplete(dirPath + [c.name], c, rel[1..]);
      assert rel == [c.name] + rel[1..];
      assert (dirPath + [c.name]) + rel[1..] == dirPath + rel;
      assert Contribution(dirPath, c) == LegacyOrder(dirPath + [c.name], c);
    }
    ListedUpToMember(dirPath, d, |es|, dirPath + rel);
  }

  /** percorrer_pastas_recursivamente reports true exactly when some regular file below has a wav name. */
  lemma FoundIffRegularWav(dirPath: Path, d: Entry)
    requires d.Dir? && WellFormed(d)
    ensures LegacyOrder(dirPath, d) != [] <==> exists rel :: IsRegularWavAt(d, rel)
  {
    if LegacyOrder(dirPath, d) != [] {
      var p := LegacyOrder(dirPath, d)[0];
      LegacyOrderSound(dirPath, d, p);
    }
    if exists rel :: IsRegularWavAt(d, rel) {
      var rel :| IsRegularWavAt(d, rel);
      LegacyOrderComplete(dirPath, d, rel);
    }
  }

  /**
   * The two discovery procedures agree except on special entries: the walk
   * processes a subset of what find_wav_files finds under the same root,
   * and what it leaves out are exactly the entries that are neither files
   * nor folders.
   */
  lemma LegacyOrderWithinWalk(root: Path, d: Entry, rel: seq<string>)
    requires d.Dir? && WellFormed(d)
    ensures rel in LegacyOrder([], d) ==> root + rel in WavPaths(root, d)
    ensures root + rel in WavPaths(root, d) && rel !in LegacyOrder([], d) ==>
      rel != [] && Lookup(d, rel).Some? && Lookup(d, rel).value.Special?
    ensures rel != [] && Lookup(d, rel).Some? && Lookup(d, rel).value.Special? &&
            IsWavName(Lookup(d, rel).value.name) ==>
      root + rel in WavPaths(root, d) && rel !in LegacyOrder([], d)
  {
    if rel in LegacyOrder([], d) {
      LegacyOrderSound([], d, rel);
      assert rel[0..] == rel;
      WavPathsComplete(root, d, rel);
    }
    if root + rel in WavPaths(root, d) {
      WavPathsSound(root, d, root + rel);
      assert (root + rel)[|root|..] == rel;
      if Lookup(d, rel).value.File? {
        LegacyOrderComplete([], d, rel);
        assert [] + rel == rel;
      }
    }
    if rel != [] && Lookup(d, rel).Some? && Lookup(d, rel).value.Special? && IsWavName(Lookup(d, rel).value.name) {
      WavPathsComplete(root, d, rel);
      if rel in LegacyOrder([], d) {
        LegacyOrderSound([], d, rel);
        assert false;
      }
    }
  }

  // ---------------------------------------------------------------------
  // What a whole run leaves in the output folder
  // ---------------------------------------------------------------------

  /** Where the step for INPUT_FOLDER/rel writes. */
  function LegacyOut(inputRoot: Path, outputRoot: Path): Path -> Path
  {
    rel => TextFilePath(inputRoot + rel, outputRoot + Dirname(rel))
  }

  /** What the step for INPUT_FOLDER/rel leaves in its text file. */
  function LegacyText(inputRoot: Path, recognize: (Path, string) -> Recognition, chat: Chat): Path -> string
  {
    rel =>
      var p := inputRoot + rel;
      var raw, stem, folder := Transcript(recognize(p, Language)), Stem(Basename(p)), Basename(Dirname(p));
      RewriteChatGpt(raw, stem, folder, chat(raw, stem, folder))
  }

  /** Whether the step for INPUT_FOLDER/rel writes at all. */
  function LegacyWrites(inputRoot: Path, recognize: (Path, string) -> Recognition): Path -> bool
  {
    rel => !recognize(inputRoot + rel, Language).Failure?
  }

  /** Each step writes one text file, or nothing when the recognizer fails in an unclassified way. */
  lemma LegacyWritesOnly(unwritable: set<Path>, inputRoot: Path, outputRoot: Path,
                         recognize: (Path, string) -> Recognition, chat: Chat)
    ensures WritesOnly(LegacyStep(unwritable, inputRoot, outputRoot, recognize, chat), unwritable,
                       LegacyOut(inputRoot, outputRoot), LegacyText(inputRoot, recognize, chat), LegacyWrites(inputRoot, recognize))
  {
    var out, text, writes := LegacyOut(inputRoot, outputRoot), LegacyText(inputRoot, recognize, chat), LegacyWrites(inputRoot, recognize);
    forall f, x
      ensures LegacyStep(unwritable, inputRoot, outputRoot, recognize, chat)(f, x)
           == if writes(x) then Saved(f, unwritable, out(x), text(x)) else f
    {
      LegacyStepApplied(unwritable, inputRoot, outputRoot, recognize, chat, f, x);
      var after := ProcessedFiles(f, unwritable, inputRoot + x, outputRoot + Dirname(x), recognize, chat);
      if !writes(x) || out(x) in unwritable {
        assert after == f;
      } else {
        assert after == f[out(x) := text(x)];
      }
    }
  }

  /** Two files of the walk share a text file exactly when they sit in the same folder and have the same stem. */
  lemma LegacyOutCollision(inputRoot: Path, outputRoot: Path, a: Path, b: Path)
    requires a != [] && b != []
    ensures LegacyOut(inputRoot, outputRoot)(a) == LegacyOut(inputRoot, outputRoot)(b)
        <==> Dirname(a) == Dirname(b) && Stem(Basename(a)) == Stem(Basename(b))
  {
    TextFileIsOutputPath(a, inputRoot, outputRoot);
    TextFileIsOutputPath(b, inputRoot, outputRoot);
    OutputPathCollision(inputRoot + a, inputRoot + b, inputRoot, outputRoot);
    assert Basename(inputRoot + a) == Basename(a) && Basename(inputRoot + b) == Basename(b);
    assert Dirname(inputRoot + a) == inputRoot + Dirname(a) && Dirname(inputRoot + b) == inputRoot + Dirname(b);
    if Dirname(inputRoot + a) == Dirname(inputRoot + b) {
      assert Dirname(a) == (inputRoot + Dirname(a))[|inputRoot|..];
      assert Dirname(b) == (inputRoot + Dirname(b))[|inputRoot|..];
    }
  }

  /**
   * After executar_fluxo, the text file of a transcribed file holds the
   * rewrite of its transcript, unless a later transcribed file in the same
   * folder has the same stem (its text wins) or the file cannot be written.
   */
  lemma LegacyLastWriterWins(files: Files, unwritable: set<Path>, inputRoot: Path, outputRoot: Path,
                             recognize: (Path, string) -> Recognition, chat: Chat, d: Entry, i: nat)
    requires d.Dir? && i < |LegacyOrder([], d)|
    requires !recognize(inputRoot + LegacyOrder([], d)[i], Language).Failure?
    requires forall j :: i < j < |LegacyOrder([], d)| && !recognize(inputRoot + LegacyOrder([], d)[j], Language).Failure? ==>
      Dirname(LegacyOrder([], d)[j]) != Dirname(LegacyOrder([], d)[i]) ||
      Stem(Basename(LegacyOrder([], d)[j])) != Stem(Basename(LegacyOrder([], d)[i]))
    ensures var rel := LegacyOrder([], d)[i];
      var out := TextFilePath(inputRoot + rel, outputRoot + Dirname(rel));
      var after := Fold(files, LegacyOrder([], d), LegacyStep(unwritable, inputRoot, outputRoot, recognize, chat));
      out !in unwritable ==> out in after && after[out] == LegacyText(inputRoot, recognize, chat)(rel)
  {
    var order := LegacyOrder([], d);
    var out := LegacyOut(inputRoot, outputRoot);
    var writes := LegacyWrites(inputRoot, recognize);
    if out(order[i]) !in unwritable {
      LegacyWritesOnly(unwritable, inputRoot, outputRoot, recognize, chat);
      LegacyOrderUnder([], d, order[i]);
      forall j | i < j < |order| && writes(order[j]) ensures out(order[j]) != out(order[i]) {
        LegacyOrderUnder([], d, order[j]);
        LegacyOutCollision(inputRoot, outputRoot, order[j], order[i]);
      }
      FoldLastWriter(files, order, LegacyStep(unwritable, inputRoot, outputRoot, recognize, chat), unwritable,
                     out, LegacyText(inputRoot, recognize, chat), writes, i);
    }
  }

  /** executar_fluxo changes no file other than the text files of the files it walks. */
  lemma LegacyKeepsOthers(files: Files, unwritable: set<Path>, inputRoot: Path, outputRoot: Path,
                          recognize: (Path, string) -> Recognition, chat: Chat, d: Entry, q: Path)
    requires d.Dir?
    requires forall rel :: rel in LegacyOrder([], d) ==> TextFilePath(inputRoot + rel, outputRoot + Dirname(rel)) != q
    ensures var after := Fold(files, LegacyOrder([], d), LegacyStep(unwritable, inputRoot, outputRoot, recognize, chat));
      (q in after <==> q in files) && (q in files ==> after[q] == files[q])
  {
    var order := LegacyOrder([], d);
    LegacyWritesOnly(unwritable, inputRoot, outputRoot, recognize, chat);
    forall j | 0 <= j < |order| ensures LegacyOut(inputRoot, outputRoot)(order[j]) != q {
      assert order[j] in order;
    }
    FoldKeepsOthers(files, order, LegacyStep(unwritable, inputRoot, outputRoot, recognize, chat), unwritable,
                    LegacyOut(inputRoot, outputRoot), LegacyText(inputRoot, recognize, chat), LegacyWrites(inputRoot, recognize), q);
  }
}
