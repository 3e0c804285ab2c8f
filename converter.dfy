/**
 * The class-based pipeline of main.py: AudioTextConverter finds every wav
 * file with FileManager.find_wav_files, then for each one transcribes it,
 * saves the raw transcript at its mirrored output path, asks the text
 * processor for a rewrite and saves the rewrite over the raw transcript.
 *
 * The recognizer and TextProcessor.rewrite_text are functions given to the
 * converter when it is built; the output files are a FileStore.FileSystem.
 */
module Converter {
  import opened Wrappers
  import opened PathMapper
  import opened DirectoryWalker
  import opened FileStore
  import opened AudioProcessor
  import opened Rewrite
  import opened Batch
  import opened LegacyPipeline

  /** TextProcessor.rewrite_text(raw text, file stem, folder name). */
  type TextRewriter = (string, string, string) -> string

  /** The text process_audio_file leaves for a file: the rewrite of its transcript. */
  function FinalText(audioPath: Path, recognize: (Path, string) -> Recognition, rewriteText: TextRewriter): string
  {
    var (baseName, parentFolder) := GetFileInfo(audioPath);
    rewriteText(TranscribeAudio(recognize, audioPath), baseName, parentFolder)
  }

  /**
   * The file contents after process_audio_file(audioPath): the raw transcript
   * is saved and then overwritten, so only the rewrite remains, at the
   * mirrored output path, unless writing there fails.
   */
  function ConvertedFiles(files: Files, unwritable: set<Path>, audioPath: Path, inputRoot: Path, outputRoot: Path,
                          recognize: (Path, string) -> Recognition, rewriteText: TextRewriter): (r: Files)
    requires IsPrefix(inputRoot, Dirname(audioPath))
    ensures r == Saved(files, unwritable, OutputPath(audioPath, inputRoot, outputRoot), FinalText(audioPath, recognize, rewriteText))
  {
    var (baseName, parentFolder) := GetFileInfo(audioPath);
    var outputPath := OutputPath(audioPath, inputRoot, outputRoot);
    var raw := TranscribeAudio(recognize, audioPath);
    var afterRaw := Saved(files, unwritable, outputPath, raw);
    SavedTwice(files, unwritable, outputPath, raw, rewriteText(raw, baseName, parentFolder));
    Saved(afterRaw, unwritable, outputPath, rewriteText(raw, baseName, parentFolder))
  }

  predicate UnderRoot(p: Path, inputRoot: Path)
  {
    IsPrefix(inputRoot, Dirname(p))
  }

  /**
   * The per-file step of process_all_files. Every file find_wav_files
   * returns lies under the input root (see UnderRootDiscovered), so the
   * second branch is never taken on a run.
   */
  function ConverterStep(unwritable: set<Path>, inputRoot: Path, outputRoot: Path,
                         recognize: (Path, string) -> Recognition, rewriteText: TextRewriter): (Files, Path) -> Files
  {
    (files: Files, p: Path) =>
      if UnderRoot(p, inputRoot) then ConvertedFiles(files, unwritable, p, inputRoot, outputRoot, recognize, rewriteText)
      else files
  }

  lemma ConverterStepApplied(unwritable: set<Path>, inputRoot: Path, outputRoot: Path,
                             recognize: (Path, string) -> Recognition, rewriteText: TextRewriter, files: Files, p: Path)
    requires UnderRoot(p, inputRoot)
    ensures ConverterStep(unwritable, inputRoot, outputRoot, recognize, rewriteText)(files, p)
         == ConvertedFiles(files, unwritable, p, inputRoot, outputRoot, recognize, rewriteText)
  {
  }

  /** One more file processed is one more process_audio_file. */
  lemma ConverterFoldSnoc(files: Files, items: seq<Path>, p: Path, unwritable: set<Path>, inputRoot: Path, outputRoot: Path,
                          recognize: (Path, string) -> Recognition, rewriteText: TextRewriter)
    requires UnderRoot(p, inputRoot)
    ensures Fold(files, items + [p], ConverterStep(unwritable, inputRoot, outputRoot, recognize, rewriteText))
         == ConvertedFiles(Fold(files, items, ConverterStep(unwritable, inputRoot, outputRoot, recognize, rewriteText)),
                           unwritable, p, inputRoot, outputRoot, recognize, rewriteText)
  {
    var step := ConverterStep(unwritable, inputRoot, outputRoot, recognize, rewriteText);
    FoldSnoc(files, items, p, step);
    ConverterStepApplied(unwritable, inputRoot, outputRoot, recognize, rewriteText, Fold(files, items, step), p);
  }

  /** Everything find_wav_files returns lies under the folder it searched. */
  lemma UnderRootDiscovered(inputRoot: Path, top: Option<Entry>, p: Path)
    requires p in Discovered(inputRoot, top)
    ensures UnderRoot(p, inputRoot)
  {
    DiscoveredSpec(inputRoot, top);
    assert Dirname(p)[..|inputRoot|] == p[..|inputRoot|];
  }

  class AudioTextConverter {
    /** What the AudioProcessor's recognizer does with (audio path, language tag). */
    const recognize: (Path, string) -> Recognition
    /** The TextProcessor's rewrite_text. */
    const rewriteText: TextRewriter
    /** The files the FileManager reads and writes. */
    const fileManager: FileSystem
    /** INPUT_FOLDER and OUTPUT_FOLDER. */
    const inputRoot: Path
    const outputRoot: Path

    constructor (recognize: (Path, string) -> Recognition, rewriteText: TextRewriter, fileManager: FileSystem,
                 inputRoot: Path, outputRoot: Path)
      ensures this.recognize == recognize && this.rewriteText == rewriteText && this.fileManager == fileManager
      ensures this.inputRoot == inputRoot && this.outputRoot == outputRoot
    {
      this.recognize := recognize;
      this.rewriteText := rewriteText;
      this.fileManager := fileManager;
      this.inputRoot := inputRoot;
      this.outputRoot := outputRoot;
    }

    /** The per-file step of this converter. */
    function Step(): (Files, Path) -> Files
    {
      ConverterStep(fileManager.unwritable, inputRoot, outputRoot, recognize, rewriteText)
    }

    /**
     * process_audio_file: save the raw transcript at the output path, then
     * overwrite it with the rewrite.
     */
    method ProcessAudioFile(audioPath: Path)
      requires UnderRoot(audioPath, inputRoot)
      modifies fileManager
      ensures fileManager.files == ConvertedFiles(old(fileManager.files), fileManager.unwritable, audioPath, inputRoot, outputRoot, recognize, rewriteText)
    {
      var (baseName, parentFolder) := GetFileInfo(audioPath);
      var outputPath := OutputPath(audioPath, inputRoot, outputRoot);
      var rawText := TranscribeAudio(recognize, audioPath);
      fileManager.SaveText(rawText, outputPath);
      var rewritten := rewriteText(rawText, baseName, parentFolder);
      fileManager.SaveText(rewritten, outputPath);
    }

    /**
     * process_all_files: find the wav files under the input root (inputTree
     * is what lies there) and process them in the order found; with none
     * found, return at once.
     */
    method ProcessAllFiles(inputTree: Option<Entry>)
      modifies fileManager
      ensures fileManager.files == Fold(old(fileManager.files), Discovered(inputRoot, inputTree), Step())
    {
      var wavFiles := FindWavFiles(inputRoot, inputTree);
      if wavFiles == [] {
        return;
      }
      ghost var start := fileManager.files;
      for i := 0 to |wavFiles|
        invariant fileManager.files == Fold(start, wavFiles[..i], Step())
      {
        var audioPath := wavFiles[i];
        assert wavFiles[..i + 1] == wavFiles[..i] + [audioPath];
        UnderRootDiscovered(inputRoot, inputTree, audioPath);
        ProcessNext(start, wavFiles[..i], audioPath);
      }
      assert wavFiles[..|wavFiles|] == wavFiles;
    }

    /** One turn of process_all_files' loop: the files done so far, then audioPath. */
    method ProcessNext(ghost start: Files, ghost done: seq<Path>, audioPath: Path)
      requires UnderRoot(audioPath, inputRoot)
      requires fileManager.files == Fold(start, done, Step())
      modifies fileManager
      ensures fileManager.files == Fold(start, done + [audioPath], Step())
    {
      ProcessAudioFile(audioPath);
      ConverterFoldSnoc(start, done, audioPath, fileManager.unwritable, inputRoot, outputRoot, recognize, rewriteText);
    }
  }

  // ---------------------------------------------------------------------
  // What a run leaves behind
  // ---------------------------------------------------------------------

  function OutputOf(inputRoot: Path, outputRoot: Path): Path -> Path
  {
    p => if UnderRoot(p, inputRoot) then OutputPath(p, inputRoot, outputRoot) else p
  }

  lemma ConverterWritesOnly(unwritable: set<Path>, inputRoot: Path, outputRoot: Path,
                            recognize: (Path, string) -> Recognition, rewriteText: TextRewriter)
    ensures WritesOnly(ConverterStep(unwritable, inputRoot, outputRoot, recognize, rewriteText), unwritable,
                       OutputOf(inputRoot, outputRoot), p => FinalText(p, recognize, rewriteText), p => UnderRoot(p, inputRoot))
  {
  }

  /**
   * After process_all_files, a discovered file's output path holds the
   * rewrite of that file's transcript, unless a later file in the same
   * folder has the same stem (then that file's text wins) or the path
   * cannot be written.
   */
  lemma ConverterLastWriterWins(files: Files, unwritable: set<Path>, inputRoot: Path, outputRoot: Path,
                                recognize: (Path, string) -> Recognition, rewriteText: TextRewriter,
                                top: Option<Entry>, i: nat)
    requires i < |Discovered(inputRoot, top)|
    requires forall j :: i < j < |Discovered(inputRoot, top)| ==>
      Dirname(Discovered(inputRoot, top)[j]) != Dirname(Discovered(inputRoot, top)[i]) ||
      Stem(Basename(Discovered(inputRoot, top)[j])) != Stem(Basename(Discovered(inputRoot, top)[i]))
    ensures UnderRoot(Discovered(inputRoot, top)[i], inputRoot)
    ensures var found := Discovered(inputRoot, top);
      var after := Fold(files, found, ConverterStep(unwritable, inputRoot, outputRoot, recognize, rewriteText));
      var out := OutputPath(found[i], inputRoot, outputRoot);
      out !in unwritable ==> out in after && after[out] == FinalText(found[i], recognize, rewriteText)
  {
    var found := Discovered(inputRoot, top);
    var out := OutputOf(inputRoot, outputRoot);
    UnderRootDiscovered(inputRoot, top, found[i]);
    if out(found[i]) !in unwritable {
      ConverterWritesOnly(unwritable, inputRoot, outputRoot, recognize, rewriteText);
      forall j | i < j < |found| && UnderRoot(found[j], inputRoot) ensures out(found[j]) != out(found[i]) {
        OutputPathCollision(found[j], found[i], inputRoot, outputRoot);
      }
      FoldLastWriter(files, found, ConverterStep(unwritable, inputRoot, outputRoot, recognize, rewriteText), unwritable,
                     out, p => FinalText(p, recognize, rewriteText), p => UnderRoot(p, inputRoot), i);
    }
  }

  /** process_all_files changes no file other than the output paths of the files it finds. */
  lemma ConverterKeepsOthers(files: Files, unwritable: set<Path>, inputRoot: Path, outputRoot: Path,
                             recognize: (Path, string) -> Recognition, rewriteText: TextRewriter,
                             top: Option<Entry>, q: Path)
    requires forall p :: p in Discovered(inputRoot, top) && UnderRoot(p, inputRoot) ==> OutputPath(p, inputRoot, outputRoot) != q
    ensures var after := Fold(files, Discovered(inputRoot, top), ConverterStep(unwritable, inputRoot, outputRoot, recognize, rewriteText));
      (q in after <==> q in files) && (q in files ==> after[q] == files[q])
  {
    var found := Discovered(inputRoot, top);
    var out := OutputOf(inputRoot, outputRoot);
    ConverterWritesOnly(unwritable, inputRoot, outputRoot, recognize, rewriteText);
    forall j | 0 <= j < |found| && UnderRoot(found[j], inputRoot) ensures out(found[j]) != q {
      assert found[j] in found;
    }
    FoldKeepsOthers(files, found, ConverterStep(unwritable, inputRoot, outputRoot, recognize, rewriteText), unwritable,
                    out, p => FinalText(p, recognize, rewriteText), p => UnderRoot(p, inputRoot), q);
  }

  /**
   * Scenario: "clip.wav" and "clip.WAV" in one folder are both wav files for
   * find_wav_files, and both map to the same output file, so the one
   * processed later overwrites the other's text.
   */
  lemma CaseVariantsShareOutput(dir: Path, inputRoot: Path, outputRoot: Path)
    requires IsPrefix(inputRoot, dir)
    ensures IsWavName("clip.wav") && IsWavName("clip.WAV")
    ensures UnderRoot(dir + ["clip.wav"], inputRoot) && UnderRoot(dir + ["clip.WAV"], inputRoot)
    ensures OutputPath(dir + ["clip.wav"], inputRoot, outputRoot) == OutputPath(dir + ["clip.WAV"], inputRoot, outputRoot)
  {
    var lower, upper := dir + ["clip.wav"], dir + ["clip.WAV"];
    assert Dirname(lower) == dir && Basename(lower) == "clip.wav";
    assert Dirname(upper) == dir && Basename(upper) == "clip.WAV";
    ClipStem("clip.wav");
    ClipStem("clip.WAV");
    OutputPathCollision(lower, upper, inputRoot, outputRoot);
  }

  lemma ClipStem(name: string)
    requires name == "clip.wav" || name == "clip.WAV"
    ensures IsWavName(name) && Stem(name) == "clip"
  {
    WavNameShape(name);
    assert name[..4] == "clip";
    assert HasNonDot("clip") by { assert "clip"[0] != '.'; }
    WavStem(name);
  }

  // ---------------------------------------------------------------------
  // The two pipelines side by side
  // ---------------------------------------------------------------------

  /**
   * On one file, with rewrite_text doing what reescrever_chatgpt does, the
   * two pipelines leave the same files whenever the recognizer does not fail
   * in an unclassified way: same output path, same text.
   */
  lemma PipelinesAgreeUnlessOtherFailure(files: Files, unwritable: set<Path>, inputRoot: Path, outputRoot: Path, rel: Path,
                                         recognize: (Path, string) -> Recognition, chat: Chat, rewriteText: TextRewriter)
    requires rel != [] && !recognize(inputRoot + rel, Language).Failure?
    requires forall raw, stem, folder :: rewriteText(raw, stem, folder) == RewriteChatGpt(raw, stem, folder, chat(raw, stem, folder))
    ensures UnderRoot(inputRoot + rel, inputRoot)
    ensures LegacyStep(unwritable, inputRoot, outputRoot, recognize, chat)(files, rel)
         == ConvertedFiles(files, unwritable, inputRoot + rel, inputRoot, outputRoot, recognize, rewriteText)
  {
    var p := inputRoot + rel;
    TextFileIsOutputPath(rel, inputRoot, outputRoot);
    LegacyStepApplied(unwritable, inputRoot, outputRoot, recognize, chat, files, rel);
    var out := OutputPath(p, inputRoot, outputRoot);
    var text := FinalText(p, recognize, rewriteText);
    var raw, stem, folder := Transcript(recognize(p, Language)), Stem(Basename(p)), Basename(Dirname(p));
    assert text == RewriteChatGpt(raw, stem, folder, chat(raw, stem, folder));
    var legacy := ProcessedFiles(files, unwritable, p, outputRoot + Dirname(rel), recognize, chat);
    var converted := ConvertedFiles(files, unwritable, p, inputRoot, outputRoot, recognize, rewriteText);
    if out in unwritable {
      assert legacy == files && converted == files;
    } else {
      assert legacy == files[out := text];
      assert converted == files[out := text];
    }
  }

  /**
   * process_audio_file does not tell failures apart from transcripts: when
   * the recognizer fails in an unclassified way, the rewrite of the error
   * text is what it saves.
   */
  lemma ConverterSavesErrorText(files: Files, unwritable: set<Path>, p: Path, inputRoot: Path, outputRoot: Path,
                                recognize: (Path, string) -> Recognition, rewriteText: TextRewriter)
    requires UnderRoot(p, inputRoot) && recognize(p, Language).Failure?
    ensures var out := OutputPath(p, inputRoot, outputRoot);
      var converted := ConvertedFiles(files, unwritable, p, inputRoot, outputRoot, recognize, rewriteText);
      out !in unwritable ==>
        out in converted &&
        converted[out] == rewriteText(FailurePrefix + recognize(p, Language).description, Stem(Basename(p)), Basename(Dirname(p)))
  {
    assert TranscribeAudio(recognize, p) == FailurePrefix + recognize(p, Language).description;
  }

  /**
   * When the recognizer fails in an unclassified way, the function-based
   * pipeline writes nothing, while the class-based one saves the rewrite of
   * the error text at the file's output path.
   */
  lemma PipelinesDifferOnOtherFailure(files: Files, unwritable: set<Path>, inputRoot: Path, outputRoot: Path, rel: Path,
                                      recognize: (Path, string) -> Recognition, chat: Chat, rewriteText: TextRewriter)
    requires rel != [] && recognize(inputRoot + rel, Language).Failure?
    ensures UnderRoot(inputRoot + rel, inputRoot)
    ensures LegacyStep(unwritable, inputRoot, outputRoot, recognize, chat)(files, rel) == files
    ensures var out := OutputPath(inputRoot + rel, inputRoot, outputRoot);
      var converted := ConvertedFiles(files, unwritable, inputRoot + rel, inputRoot, outputRoot, recognize, rewriteText);
      out !in unwritable ==>
        out in converted &&
        converted[out] == rewriteText(FailurePrefix + recognize(inputRoot + rel, Language).description,
                                      Stem(Basename(rel)), Basename(Dirname(inputRoot + rel)))
  {
    TextFileIsOutputPath(rel, inputRoot, outputRoot);
    LegacyStepSkipsOtherFailure(unwritable, inputRoot, outputRoot, recognize, chat, files, rel);
    ConverterSavesErrorText(files, unwritable, inputRoot + rel, inputRoot, outputRoot, recognize, rewriteText);
    assert Basename(inputRoot + rel) == Basename(rel);
  }
}
