/**
 * Both pipelines handle their audio files one after the other, each file's
 * handling reading and writing the same output file system. A run is
 * therefore a left fold of one per-file step over the files in order.
 */
module Batch {
  import opened PathMapper
  import opened FileStore

  type Files = map<Path, string>

  /** The file contents after applying step to each item of items, first to last. */
  function Fold(files: Files, items: seq<Path>, step: (Files, Path) -> Files): Files
  {
    if items == [] then files
    else step(Fold(files, items[..|items| - 1], step), items[|items| - 1])
  }

  /** One more item is one more step. */
  lemma FoldSnoc(files: Files, items: seq<Path>, x: Path, step: (Files, Path) -> Files)
    ensures Fold(files, items + [x], step) == step(Fold(files, items, step), x)
  {
    assert (items + [x])[..|items|] == items;
  }

  /** Running two batches one after the other is running them as one. */
  lemma {:induction false} FoldAppend(files: Files, a: seq<Path>, b: seq<Path>, step: (Files, Path) -> Files)
    ensures Fold(files, a + b, step) == Fold(Fold(files, a, step), b, step)
    decreases |b|
  {
    if b == [] {
      assert a + b == a;
    } else {
      var ab := a + b;
      assert ab[..|ab| - 1] == a + b[..|b| - 1];
      assert ab[|ab| - 1] == b[|b| - 1];
      FoldAppend(files, a, b[..|b| - 1], step);
    }
  }

  /**
   * A step that writes text(x) at out(x) when writes(x) holds, and otherwise
   * leaves everything alone.
   */
  ghost predicate WritesOnly(step: (Files, Path) -> Files, unwritable: set<Path>,
                             out: Path -> Path, text: Path -> string, writes: Path -> bool)
  {
    forall f, x :: step(f, x) == if writes(x) then Saved(f, unwritable, out(x), text(x)) else f
  }

  /** A file no item writes to, or one that cannot be written, keeps its contents through the whole run. */
  lemma {:induction false} FoldKeepsOthers(files: Files, items: seq<Path>, step: (Files, Path) -> Files, unwritable: set<Path>,
                                           out: Path -> Path, text: Path -> string, writes: Path -> bool, q: Path)
    requires WritesOnly(step, unwritable, out, text, writes)
    requires q in unwritable || forall i :: 0 <= i < |items| && writes(items[i]) ==> out(items[i]) != q
    ensures q in Fold(files, items, step) <==> q in files
    ensures q in files ==> Fold(files, items, step)[q] == files[q]
    decreases |items|
  {
    if items != [] {
      var front := items[..|items| - 1];
      assert forall i :: 0 <= i < |front| ==> front[i] == items[i];
      FoldKeepsOthers(files, front, step, unwritable, out, text, writes, q);
    }
  }

  /**
   * Last writer wins: after the run, a writable output holds the text of the
   * last item that writes to it.
   */
  lemma {:induction false} FoldLastWriter(files: Files, items: seq<Path>, step: (Files, Path) -> Files, unwritable: set<Path>,
                                          out: Path -> Path, text: Path -> string, writes: Path -> bool, i: nat)
    requires WritesOnly(step, unwritable, out, text, writes)
    requires i < |items| && writes(items[i]) && out(items[i]) !in unwritable
    requires forall j :: i < j < |items| && writes(items[j]) ==> out(items[j]) != out(items[i])
    ensures out(items[i]) in Fold(files, items, step)
    ensures Fold(files, items, step)[out(items[i])] == text(items[i])
    decreases |items|
  {
    var front := items[..|items| - 1];
    var last := items[|items| - 1];
    if i < |items| - 1 {
      assert forall j :: i < j < |front| ==> front[j] == items[j];
      FoldLastWriter(files, front, step, unwritable, out, text, writes, i);
    }
  }
}
