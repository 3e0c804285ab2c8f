/**
 * The output file system as file_manager.py's save_text and main.py's
 * direct writes see it: a map from file path to contents, in which opening
 * some paths for writing fails (a missing permission, a file standing where
 * a folder is needed). Folder creation (os.makedirs) leaves no trace in a
 * flat map and is not modelled.
 *
 * FileSystem.SaveText is the save_text method of the class FileManager,
 * whose other methods are modelled in PathMapper and DirectoryWalker.
 */
module FileStore {
  import opened PathMapper

  /** The contents after writing text at path: the whole file is replaced, or nothing happens if the write fails. */
  function Saved(files: map<Path, string>, unwritable: set<Path>, path: Path, text: string): (r: map<Path, string>)
    ensures path !in unwritable ==> path in r && r[path] == text
    ensures path in unwritable ==> r == files
    ensures forall q :: q != path ==> (q in r <==> q in files) && (q in files ==> r[q] == files[q])
  {
    if path in unwritable then files else files[path := text]
  }

  /** Writing twice at one path leaves only the second text. */
  lemma SavedTwice(files: map<Path, string>, unwritable: set<Path>, path: Path, first: string, second: string)
    ensures Saved(Saved(files, unwritable, path, first), unwritable, path, second)
         == Saved(files, unwritable, path, second)
  {
  }

  class FileSystem {
    var files: map<Path, string>
    const unwritable: set<Path>

    constructor (files: map<Path, string>, unwritable: set<Path>)
      ensures this.files == files && this.unwritable == unwritable
    {
      this.files := files;
      this.unwritable := unwritable;
    }

    /** open(path, "w").write(text), reporting whether it succeeded. */
    method Write(path: Path, text: string) returns (ok: bool)
      modifies this
      ensures ok <==> path !in unwritable
      ensures files == Saved(old(files), unwritable, path, text)
    {
      ok := path !in unwritable;
      if ok {
        files := files[path := text];
      }
    }

    /** FileManager.save_text: write text at path; a failure is reported and swallowed. */
    method SaveText(text: string, path: Path)
      modifies this
      ensures files == Saved(old(files), unwritable, path, text)
    {
      var _ := Write(path, text);
    }
  }
}
