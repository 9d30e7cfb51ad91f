/** Print, parse, apply and rewrite together: a patch text carries a tree of files to the intended tree. */
module PatchPipeline {
  import opened Wrappers
  import opened Text
  import opened Paths
  import opened PatchFormat
  import opened HunkApplication
  import opened DiffRoundTrip
  import opened TreeRewrite
  import Publication = PublicationParser
  import Printer = PatchPrinter

  /** An intended change of one file: the script between the text before and the text after. */
  datatype FileChange = FileChange(path: string, segments: seq<Segment>, before: string, after: string) {
    ghost predicate Sound() {
      && CleanPath(path) && !Includes(path, " b/")
      && ScriptBetween(segments, before, after) && RemovalsFirst(Script(segments)) && Plain(Script(segments))
      && Clear(segments, 0, 0) && Unmoved(BaseLines(before).texts, segments, 0) && Render(segments, 0, 0) != []
    }
  }

  function Patches(changes: seq<FileChange>): seq<FilePatch> {
    if changes == [] then [] else [Modified(changes[0].path, changes[0].segments)] + Patches(changes[1..])
  }

  predicate DistinctPaths(changes: seq<FileChange>) {
    forall i, j | 0 <= i < j < |changes| :: changes[i].path != changes[j].path
  }

  /** The base tree holds the text every change starts from. */
  predicate Holds(store: BlobStore, base: Blobs, changes: seq<FileChange>) {
    forall c <- changes :: c.path in base && store.content(base[c.path].sha) == c.before
  }

  lemma {:induction false} PatchesAt(changes: seq<FileChange>, i: nat)
    requires i < |changes|
    ensures |Patches(changes)| == |changes| && Patches(changes)[i] == Modified(changes[i].path, changes[i].segments)
  {
    hide Render;
    if i > 0 {
      PatchesAt(changes[1..], i - 1);
    } else if |changes| > 1 {
      PatchesAt(changes[1..], 0);
    }
  }

  lemma SoundWellFormed(c: FileChange)
    requires c.Sound()
    ensures Printer.WellFormedFile(Modified(c.path, c.segments))
  {
    hide CleanPath, Includes, Script, Render, Plain, OpenSection, ScriptBetween, RemovalsFirst, Clear, Unmoved;
    RenderedWellFormed(c.segments, 0, 0);
    Printer.PlainSection(Modified(c.path, c.segments));
  }

  lemma SoundOps(store: BlobStore, base: Blobs, c: FileChange)
    requires c.Sound() && Holds(store, base, [c])
    ensures var f := Modified(c.path, c.segments);
            && FileOps(store, base, f).Ok? && Touched(f) == {c.path}
            && Outcome(store, base, f, c.path) == Some(Entry(base[c.path].mode, store.sha(c.after)))
  {
    hide CleanPath, Includes, Script, Render, Plain, ScriptBetween, RemovalsFirst, Clear, Unmoved, Apply;
    assert c in [c];
    CleanIsNonEmpty(c.path);
    DiffThenApply(c.segments, c.before, c.after);
    ModifiedEntry(store, base, Modified(c.path, c.segments), c.path);
  }

  lemma CleanIsNonEmpty(path: string)
    requires CleanPath(path)
    ensures path != ""
  {
  }

  lemma PatchMember(changes: seq<FileChange>, f: FilePatch) returns (i: nat)
    requires f in Patches(changes)
    ensures i < |changes| && f == Modified(changes[i].path, changes[i].segments)
  {
    hide Render;
    if changes == [] { assert false; } else { PatchesAt(changes, 0); }
    i :| 0 <= i < |Patches(changes)| && Patches(changes)[i] == f;
    PatchesAt(changes, i);
  }

  lemma PatchesDisjoint(changes: seq<FileChange>)
    requires DistinctPaths(changes)
    ensures Disjoint(Patches(changes))
  {
    hide Render;
    if changes != [] { PatchesAt(changes, 0); }
    forall i, j | 0 <= i < j < |Patches(changes)| ensures Touched(Patches(changes)[i]) !! Touched(Patches(changes)[j]) {
      PatchesAt(changes, i);
      PatchesAt(changes, j);
    }
  }

  /**
   * Diffs of several files, printed as one patch, parsed back, applied to the base tree and sent as
   * tree operations: every changed file ends with its intended text and its old mode, and every
   * other path keeps its entry.
   */
  lemma PrintedPatchRewritesTree(store: BlobStore, base: Blobs, changes: seq<FileChange>)
    requires store.Faithful() && Holds(store, base, changes)
    requires changes != [] && DistinctPaths(changes) && forall c <- changes :: c.Sound()
    requires Printer.Printable(Printer.Print(Patches(changes)))
    ensures var parsed := Publication.Parse(Printer.Print(Patches(changes)));
            && parsed == Ok(Patches(changes)) && Request(store, base, parsed.value).Ok?
            && var tree := Replay(base, Request(store, base, parsed.value).value);
            && (forall c <- changes ::
                  && c.path in base && At(tree, c.path) == Some(Entry(base[c.path].mode, store.sha(c.after)))
                  && store.content(store.sha(c.after)) == c.after)
            && (forall path | forall c <- changes :: c.path != path :: At(tree, path) == At(base, path))
  {
    hide Printer.Print, Printer.Printable, Printer.WellFormedFile, Publication.Parse, Render, FileOps, Replay,
        Request, Touched,
      FileChange.Sound, At, Outcome, Disjoint;
    var files := Patches(changes);
    PatchesAt(changes, 0);
    forall f | f in files ensures Printer.WellFormedFile(f) && FileOps(store, base, f).Ok? {
      var i := PatchMember(changes, f);
      SoundWellFormed(changes[i]);
      SoundOps(store, base, changes[i]);
    }
    Printer.ParsePrint(files);
    RequestOk(store, base, files);
    PatchesDisjoint(changes);
    var tree := Replay(base, Request(store, base, files).value);
    forall c | c in changes ensures At(tree, c.path) == Some(Entry(base[c.path].mode, store.sha(c.after))) {
      var i :| 0 <= i < |changes| && changes[i] == c;
      PatchesAt(changes, i);
      SoundOps(store, base, c);
      SectionDecides(store, base, files, i, c.path);
    }
    forall path | forall c <- changes :: c.path != path ensures At(tree, path) == At(base, path) {
      forall f | f in files ensures path !in Touched(f) {
        var i := PatchMember(changes, f);
        SoundOps(store, base, changes[i]);
      }
      UntouchedKept(store, base, files, path);
    }
  }
}
