# audio-to-text: the batch pipeline's path and policy rules in Dafny

The program transcribes every `.wav` file under an input folder with a
speech recognizer. It asks a chat service to punctuate and paragraph each
transcript, and saves the result as `<stem>.txt`. The output folder
mirrors the input folder's layout. It has two pipelines:

- the function-based one in `main.py`: `processar_arquivo_audio`,
  `percorrer_pastas_recursivamente` and `executar_fluxo`;
- the class-based one: `AudioTextConverter` with `FileManager` and
  `AudioProcessor`.

This project models what both pipelines decide:
- which files are found;
- where each text goes;
- which text a recognizer outcome or chat failure produces;
- in what order files are written, and what the output folder holds after a run.

Modules, one per concern:

- `PathMapper` (`path_mapper.dfy`): a path is the sequence of its
  components. Covers `os.path.basename`, `dirname`, `relpath` and
  `splitext` (the CPython rule), plus `get_file_info` and `get_output_path`.
- `DirectoryWalker` (`directory_walker.dfy`): the input tree is a datatype.
  - `File` is a regular file, `Special` is any other entry that is not a
    folder, and `Dir` is a folder with its entries in listing order.
  - `os.walk` is a function producing `(dirpath, dirnames, filenames)` steps.
  - `find_wav_files` is a method with the source's two nested loops.
  - It is proved equal to `Discovered`, a reference definition by
    recursion over the tree. `DiscoveredSpec` states what that list holds.
- `FileStore` (`file_store.dfy`): the output file system is a class holding
  a `map<Path, string>`. The paths in `unwritable` are those where opening
  a file for writing fails. `save_text` writes one path or nothing.
- `AudioProcessor` (`audio_processor.dfy`): the recognizer's four outcomes
  and the texts `transcribe_audio` makes of them.
- `Rewrite` (`rewrite.dfy`): `reescrever_chatgpt`. Either the service's
  reply stripped as `str.strip()` strips it, or the locally built fallback
  document.
- `Batch` (`batch.dfy`): a run is a left fold of a per-file step over the
  files in order. Generic facts about such runs: running two batches in a
  row, "last writer wins" and "files nobody writes keep their contents".
- `LegacyPipeline` (`legacy_pipeline.dfy`): `processar_arquivo_audio` as a
  method with its early returns, the recursive folder walk with its
  found-flag, and `executar_fluxo`.
- `Converter` (`converter.dfy`): the class `AudioTextConverter`, with what
  a whole run leaves behind, and the two pipelines compared file by file.

The recognizer is a parameter `(audio path, language tag) -> Recognition`.
The chat service is a parameter `(raw text, stem, folder) -> ChatReply`.
`TextProcessor.rewrite_text` is not part of this model: its source is not
available, so it is an uninterpreted parameter. `INPUT_FOLDER` and
`OUTPUT_FOLDER` are parameters; `LANGUAGE` is the constant `"pt-BR"`.

Three points where a reader might expect otherwise; the model follows the code:

- Traversal order is the order in which the tree lists its entries. No
  sorting is modelled, because `os.walk` and `os.listdir` promise none.
- A missing input root gives `find_wav_files` an empty list. In the
  function-based pipeline, `os.listdir` raises on a missing root.
  `ExecuteFlow` returns `None` for that case.
- The output files are not always one per input file:
  - a failed write is skipped;
  - the function-based pipeline writes nothing for an unclassified
    recognizer failure;
  - two inputs in one folder with the same stem (`clip.wav` and
    `clip.WAV`) share one output file, and the later one wins.

## Model

| member | source | states |
|---|---|---|
| PathMapper.RelPath | file_manager.py:38 | the input root joined with the relative path gives back the path |
| PathMapper.SplitExt | file_manager.py:21 | stem + extension is the name. The extension is empty, or starts at the last dot. A stem that is only dots gets no extension. |
| PathMapper.GetFileInfo | file_manager.py:21-22 | the first result is the file name with its last extension removed. The second is the name of the folder holding the file, or "" for a path with no folder. |
| PathMapper.OutputPath | file_manager.py:38-41 | the output ends in get_file_info's stem + ".txt" and lies under the output root. Its folder relative to the output root is the input's folder relative to the input root. |
| PathMapper.OutputPathCollision | file_manager.py:38-41 | two inputs under the root share an output exactly when they are in the same folder and have the same stem |
| PathMapper.SameStemDifferentFolders | file_manager.py:38-41 | same stem, different folders: different outputs |
| DirectoryWalker.LowerChar | file_manager.py:57 | ASCII lower-casing of one character: it yields '.', 'w', 'a' or 'v' exactly for '.', either case of 'w', 'a' or 'v' |
| DirectoryWalker.IsWavName | file_manager.py:57 | `name.lower().endswith(".wav")`; a name that passes is at least four characters long, with a dot fourth from the end |
| DirectoryWalker.WavNameShape | file_manager.py:57 | the lower-cased ".wav" test accepts exactly the names whose last four characters spell ".wav" in any case |
| DirectoryWalker.WavStem | file_manager.py:21 | the stem of a found file is its name without the last four characters. A name such as ".wav" whose dots all lead it is kept whole. |
| DirectoryWalker.Walk | file_manager.py:55 | os.walk, top-down: the first step is the folder itself with its sub-folder names and other names. Every step's folder lies under the starting path. |
| DirectoryWalker.FindWavFiles | file_manager.py:54-59 | the nested loops over os.walk return exactly Discovered, the recursive definition of the wav files of the tree |
| DirectoryWalker.CollectWavFiles | file_manager.py:55-58 | the loops append folder + name for every wav name of every walk step, in walk order |
| DirectoryWalker.WalkCollect | file_manager.py:55-58 | collecting over the steps of os.walk gives the wav files of the tree, in order |
| DirectoryWalker.DiscoveredSpec | file_manager.py:54-59 | a missing root or a non-folder root yields []. Every result lies below the directory with a wav name. In a tree with distinct names, each result is a wav file of the tree, and every wav file appears exactly once. |
| DirectoryWalker.WavPathsSound | file_manager.py:55-58 | each found path names a non-folder entry with a wav name |
| DirectoryWalker.WavPathsComplete | file_manager.py:55-58 | every non-folder entry with a wav name is found |
| DirectoryWalker.WavPathsNoDup | file_manager.py:55-58 | no path is found twice |
| DirectoryWalker.NoWavFilesNothingFound | file_manager.py:54-59 | a tree without wav files, or no tree at all, yields the empty list |
| FileStore.Saved | file_manager.py:70-76 | a writable path holds exactly the text afterwards; an unwritable path leaves everything alone; no other path changes |
| FileStore.SavedTwice | main.py:148-151 | writing one path twice leaves only the second text (overwrite, not append) |
| FileStore.FileSystem.Write | main.py:123-129 | the write succeeds exactly when the path is writable, and the files become Saved |
| FileStore.FileSystem.SaveText | file_manager.py:62-76 | the files become Saved; a failure is swallowed |
| AudioProcessor.Transcript | audio_processor.py:18-32 | a recognized text is returned unchanged; every failure gives a non-empty text |
| AudioProcessor.TranscribeAudio | audio_processor.py:8-32 | asks the recognizer in the configured language; returns its text unchanged on success and a non-empty text otherwise |
| AudioProcessor.OnlyConfiguredLanguage | audio_processor.py:21 | the result depends on the recognizer only through its answer for "pt-BR" |
| AudioProcessor.PlaceholdersIdentifyFailure | audio_processor.py:24-32 | each failure's text identifies its class. The other-failure text ends in str(e). |
| AudioProcessor.FailureTextInjective | audio_processor.py:24-32 | two failures with equal texts are of the same class, and other failures also have the same description |
| Rewrite.Strip | main.py:73 | the result neither starts nor ends with white space, and only white space was cut off on either side |
| Rewrite.StripUnpadded | main.py:73 | a text without surrounding white space is unchanged |
| Rewrite.StripIdempotent | main.py:73 | stripping twice is stripping once |
| Rewrite.Header | main.py:80 | the title line is "# ", the folder name, " - ", then the stem, and nothing else |
| Rewrite.Fallback | main.py:80 | the fallback is exactly the title line, a blank line, then the raw text, unmodified |
| Rewrite.FallbackLines | main.py:80 | for folder and stem labels without a newline, the fallback read line by line is the title, an empty line, then the raw text's own lines |
| Rewrite.JoinLines | main.py:80 | joining the lines of a text with newlines gives back the text |
| Rewrite.RewriteChatGpt | main.py:51-80 | a reply with content gives that content stripped. Any other reply gives the fallback, which is longer than the raw text. |
| Rewrite.ReplyNotValidated | main.py:73-76 | every reply whose content is only white space (including the empty string) becomes an empty document: nothing checks the reply |
| LegacyPipeline.LegacyTranscript | main.py:105-120 | the item ends (None) exactly on an unclassified failure; otherwise the text is transcribe_audio's text for the same outcome |
| LegacyPipeline.TextFilePath | main.py:92-98 | the text file lies in the given output folder and is named get_file_info's stem + ".txt" |
| LegacyPipeline.ProcessedFiles | main.py:83-154 | an unclassified failure or an unwritable text path leaves the files as they were. Otherwise the text path holds the chat rewrite of the raw text, and nothing else changes. |
| LegacyPipeline.ProcessAudioFile | main.py:83-154 | transcribe, write raw, read back, rewrite, overwrite, with the early returns; the new files are ProcessedFiles |
| LegacyPipeline.TextFileIsOutputPath | main.py:175-178 | the text path of a file found by the walk is get_output_path's path for it |
| LegacyPipeline.LegacyStepSkipsOtherFailure | main.py:117-120 | an unclassified recognizer failure writes nothing |
| LegacyPipeline.ListedUpToMember | main.py:169-201 | a path is visited within the first k entries exactly when one of those entries contributes it |
| LegacyPipeline.LegacyOrderUnder | main.py:169-201 | every visited path lies below its folder and has a wav name |
| LegacyPipeline.ProcessFoundFile | main.py:173-183 | the file at INPUT_FOLDER/rel is processed into the mirrored folder of OUTPUT_FOLDER |
| LegacyPipeline.TraverseFolders | main.py:157-206 | returns true exactly when it visits some wav file. The files are the fold of processar_arquivo_audio over the visited files in listing order, subfolders included where they are listed. |
| LegacyPipeline.ExecuteFlow | main.py:209-220 | a missing or non-folder root ends the run (None) with nothing written. Otherwise the result is the walk's flag and files. |
| LegacyPipeline.LegacyOrderSound | main.py:173 | every visited path is a regular file with a wav name |
| LegacyPipeline.LegacyOrderComplete | main.py:169-201 | every regular file with a wav name is visited |
| LegacyPipeline.FoundIffRegularWav | main.py:166-206 | the walk reports found exactly when the tree holds a regular file with a wav name |
| LegacyPipeline.LegacyOrderWithinWalk | main.py:173 | the walk visits a subset of what find_wav_files finds. A path find_wav_files finds and the walk skips names an entry that is neither file nor folder, and every such entry with a wav name is found by find_wav_files and skipped by the walk. |
| LegacyPipeline.LegacyWritesOnly | main.py:83-154 | each step writes one text at the file's text path, or nothing on an unclassified failure |
| LegacyPipeline.LegacyOutCollision | main.py:98 | two visited files share a text file exactly when they are in the same folder and have the same stem |
| LegacyPipeline.LegacyLastWriterWins | main.py:169-183 | after the run, a writable text file holds the rewrite of its file's transcript, unless a later transcribed file with the same folder and stem overwrote it |
| LegacyPipeline.LegacyKeepsOthers | main.py:169-201 | a run changes no file other than the text files of the visited files |
| Batch.FoldAppend | main.py:197-201 | processing one batch and then another is processing them together |
| Batch.FoldKeepsOthers | main.py:272-273 | a file no step writes, or one that cannot be written, keeps its contents |
| Batch.FoldLastWriter | main.py:272-273 | a writable output holds the text of the last step that writes it |
| Converter.ConvertedFiles | main.py:229-258 | the output path holds rewrite_text of the transcript (the raw text is overwritten), or nothing changes if it cannot be written |
| Converter.ConverterFoldSnoc | main.py:272-273 | one more file in the list is one more process_audio_file |
| Converter.UnderRootDiscovered | main.py:238 | every file find_wav_files returns lies under the input root, so get_output_path applies |
| Converter.AudioTextConverter.constructor | main.py:224-227 | the collaborators are the ones given |
| Converter.AudioTextConverter.ProcessAudioFile | main.py:229-258 | the files become ConvertedFiles: save raw, rewrite, save rewrite |
| Converter.AudioTextConverter.ProcessAllFiles | main.py:260-275 | the files are the fold of process_audio_file over find_wav_files' list in order; an empty list changes nothing |
| Converter.AudioTextConverter.ProcessNext | main.py:272-273 | one loop turn extends the fold by the next file |
| Converter.ConverterWritesOnly | main.py:229-258 | each step writes one text at the file's output path |
| Converter.ConverterLastWriterWins | main.py:272-273 | a writable output holds the rewrite of its file's transcript, unless a later file with the same folder and stem overwrote it |
| Converter.ConverterKeepsOthers | main.py:260-275 | a run changes no file other than the output paths of the files found |
| Converter.CaseVariantsShareOutput | file_manager.py:38-41 | "clip.wav" and "clip.WAV" in one folder are both found and map to one output file |
| Converter.PipelinesAgreeUnlessOtherFailure | main.py:105-154 | with rewrite_text doing what reescrever_chatgpt does, both pipelines leave the same files for a file whose recognition does not fail in an unclassified way |
| Converter.ConverterSavesErrorText | audio_processor.py:30-32 | on an unclassified failure the class-based pipeline saves the rewrite of "Erro ao processar o áudio: " + str(e) |
| Converter.PipelinesDifferOnOtherFailure | main.py:117-120 | on an unclassified failure the function-based pipeline writes nothing, while the class-based one saves the rewrite of the error text |

## Left out

- The network calls are not modelled; the speech recognizer and the chat
  service are parameters. The prompt wording and the model settings only
  advise the service and have no checkable effect.
- TextProcessor.rewrite_text is not part of this model; it is an uninterpreted
  parameter, and the model assumes it returns. It is called outside any `try`
  (main.py:249), so an exception from it would end `process_all_files` and
  leave that file's raw transcript in place; that is not modelled.
- Logging (`print`) and the console comparison are not modelled.
- Directory creation (`os.makedirs`) is not modelled. The flat path-to-text
  map has no folders. In the function-based pipeline, `makedirs` runs outside
  any `try` at main.py:101, 179 and 194. A failure there would end the run,
  and that is not modelled either.
- FileStore.FileSystem.Write, LegacyPipeline.ProcessedFiles and
  Converter.ConvertedFiles: writability is a fixed set of paths where
  opening for writing fails. This leaves two cases out:
  - A write that fails after `open(path, "w")` has truncated the file
    leaves it empty or partly written. In the model it stays unchanged.
  - The overwrite with the rewritten text can fail after the raw write
    succeeded, leaving the raw transcript in place (main.py:149-154, and
    the second `save_text` at main.py:258). In the model, a path that took
    the raw text also takes the rewrite.
- DirectoryWalker.Entry has no folder that exists but cannot be listed.
  On such a sub-folder, `os.walk` skips it silently (file_manager.py:55, no
  `onerror`). `os.listdir` (main.py:169) would raise there, uncaught, and
  end the function-based run. The model keeps this difference only for a
  missing or non-folder root (`ExecuteFlow`).
- Newline translation and text encoding of files opened in text mode are not modelled.
- Symbolic links are not modelled: an entry is a file, a folder, or neither.
- LegacyPipeline.ProcessedFiles: reading the raw text back after a
  successful write is a lookup that cannot fail. The read failure at
  main.py:135-137 is not modelled.
- DirectoryWalker.LowerChar: `str.lower` is modelled on ASCII letters only.
  Unicode case folding is not modelled.
- PathMapper.RelPath: only a path under the root is modelled. `relpath`
  of a path outside the root (with `..`) is not modelled. Python's `"."`
  for the root itself is the empty relative path here.
- Converter.AudioTextConverter.ProcessAudioFile: requires the file's folder
  to lie under the input root, for the same reason. Every file that
  find_wav_files returns does (UnderRootDiscovered).
- LegacyPipeline.ExecuteFlow: the exception `os.listdir` raises on a
  missing root is modelled as the result `None`, with nothing written.
- The `output_folder` parameter of `percorrer_pastas_recursivamente` is
  never used by the source, which always derives the output folder from
  `OUTPUT_FOLDER`. The model has no such parameter.
- Traversal order is modelled as the tree's listing order, and nothing
  about that order is claimed.
- `FileManager.ensure_directory` and `main()` are not modelled. The first
  only creates a folder; the second only constructs the converter and
  calls `process_all_files`.
