/** What the patch policy guarantees, and does not, about the tree request the publication sends. */
module PatchScope {
  import opened Wrappers
  import opened Text
  import opened Paths
  import opened PatchFormat
  import R = RecoveryParser
  import Publication = PublicationParser
  import Agreement = ParserAgreement
  import Printer = PatchPrinter
  import opened TreeRewrite
  import opened PatchPolicy

  function FromParser(files: seq<R.PatchFile>): (r: seq<Candidate>)
    ensures |r| == |files| && forall i | 0 <= i < |files| :: r[i] == Candidate(files[i], false, false, false)
  {
    if files == [] then [] else [Candidate(files[0], false, false, false)] + FromParser(files[1..])
  }

  lemma CleanNormalizes(path: string)
    requires CleanPath(path)
    ensures Normalize(path) == Ok(path)
  {
    hide Split, HasDrive, PosixNormalize;
    PosixNormalizeClean(path);
    assert Slashes(path) == path;
    FirstSegmentIs(path, ".");
    FirstSegmentIs(path, "..");
    FirstSegmentIs(path, ".git");
  }

  /** A file without policy reasons lies under an allowed path and under no denied one. */
  lemma AcceptedFileInScope(lib: Library, policy: Policy, c: Candidate)
    requires CleanPath(c.file.Path()) && FileReasons(lib, policy, c) == Some([])
    ensures exists a <- policy.allowedPaths :: Under(c.file.Path(), a)
    ensures forall d <- policy.deniedPaths :: !Under(c.file.Path(), d)
  {
    hide Normalize, AnyMatch, KindReasons, HunkReasons, Under, CleanPath;
    CleanNormalizes(c.file.Path());
    AnyMatchMeans(c.file.Path(), policy.allowedPaths);
    AnyMatchMeans(c.file.Path(), policy.deniedPaths);
  }

  ghost predicate InScope(policy: Policy, path: string) {
    (exists a <- policy.allowedPaths :: Under(path, a)) && forall d <- policy.deniedPaths :: !Under(path, d)
  }

  /** What a diff of normalized paths gives: sections with clean paths on the sides their change type has. */
  ghost predicate Shaped(f: FilePatch) {
    && Printer.CleanOption(f.oldPath) && Printer.CleanOption(f.newPath)
    && (f.oldPath.None? <==> f.change == Add) && (f.newPath.None? ==> f.change == Delete || f.change == Add)
    && (f.change == Delete ==> f.newPath.None?) && (f.newPath.Some? || f.oldPath.Some?)
  }

  ghost predicate CleanSection(s: Section) {
    && Printer.CleanOption(s.oldPath) && Printer.CleanOption(s.newPath)
    && (s.renameFrom != "" ==> CleanPath(s.renameFrom)) && (s.renameTo != "" ==> CleanPath(s.renameTo))
  }

  lemma SidePathClean(value: string, prefix: string)
    requires Agreement.CleanSide(value, prefix)
    ensures var r := SidePath(Publication, value, prefix); r.Ok? ==> Printer.CleanOption(r.value)
  {
    hide CleanPath, NormalizePatchPath;
    var side := Agreement.StripSide(value, prefix);
    if CleanPath(side) { CleanPathIsFixed(Publication, side); }
  }

  lemma HeaderLineClean(line: string, s: Section)
    requires Agreement.NormalizedLine(line) && CleanSection(s)
    ensures var r := ReadHeaderLine(Publication, line, s); r.Ok? ==> CleanSection(r.value)
  {
    hide CleanPath, NormalizePatchPath, DiffHeader, SidePath, Agreement.CleanSide;
    if "new file mode " <= line || "deleted file mode " <= line { }
    else if "rename from " <= line { CleanPathIsFixed(Publication, line[12..]); }
    else if "rename to " <= line { CleanPathIsFixed(Publication, line[10..]); }
    else if "--- " <= line { SidePathClean(line[4..], "a/"); }
    else if "+++ " <= line { SidePathClean(line[4..], "b/"); }
  }

  lemma {:induction false} HeaderClean(rest: seq<string>, s: Section)
    requires CleanSection(s) && forall line <- rest :: Agreement.NormalizedLine(line)
    ensures var r := ReadHeader(Publication, rest, s);
            r.Ok? ==> CleanSection(r.value.0) && forall line <- r.value.1 :: line in rest
  {
    hide CleanSection, Agreement.NormalizedLine, ReadHeaderLine;
    if rest != [] && !StartsHunk(rest[0]) && !StartsSection(rest[0]) {
      HeaderLineClean(rest[0], s);
      var next := ReadHeaderLine(Publication, rest[0], s);
      if next.Ok? { HeaderClean(rest[1..], next.value); }
    }
  }

  lemma OpenedClean(line: string)
    requires Agreement.NormalizedLine(line)
    ensures var r := OpenSection(Publication, line); r.Ok? ==> CleanSection(r.value)
  {
    hide CleanPath, NormalizePatchPath, DiffHeader;
    if DiffHeader(line).Some? {
      CleanPathIsFixed(Publication, DiffHeader(line).value.0);
      CleanPathIsFixed(Publication, DiffHeader(line).value.1);
    }
  }

  lemma ResolvedShaped(s: Section, hunks: seq<Hunk>)
    requires CleanSection(s) && s.Resolved().EffectivePath() != ""
    ensures var t := s.Resolved(); Shaped(FilePatch(t.oldPath, t.newPath, t.Change(), hunks))
  {
    hide CleanPath;
  }

  lemma {:induction false} ReadFilesShaped(rest: seq<string>, files: seq<FilePatch>)
    requires (forall line <- rest :: Agreement.NormalizedLine(line)) && forall f <- files :: Shaped(f)
    ensures var r := Publication.ReadFiles(rest, files); r.Ok? ==> forall f <- r.value :: Shaped(f)
    decreases |rest|
  {
    hide OpenSection, ReadHeader, Publication.ReadHunks, Shaped, CleanSection, Agreement.NormalizedLine;
    if rest != [] {
      if rest[0] == "" {
        ReadFilesShaped(rest[1..], files);
      } else {
        OpenedClean(rest[0]);
        var opened' := OpenSection(Publication, rest[0]);
        if opened'.Ok? {
          HeaderClean(rest[1..], opened'.value);
          var header := ReadHeader(Publication, rest[1..], opened'.value);
          if header.Ok? && header.value.0.Resolved().EffectivePath() != "" {
            var section := header.value.0.Resolved();
            var hunks := Publication.ReadHunks(header.value.1, []);
            if hunks.Ok? {
              ResolvedShaped(header.value.0, hunks.value.0);
              Publication.HunksTail(header.value.1, []);
              ReadFilesShaped(hunks.value.1, files + [FilePatch(section.oldPath, section.newPath, section.Change(),
                  hunks.value.0)]);
            }
          }
        }
      }
    }
  }

  lemma ParsedShaped(text: string)
    requires Screen(text).Ok? ==> forall line <- Screen(text).value :: Agreement.NormalizedLine(line)
    ensures Publication.Parse(text).Ok? ==> forall f <- Publication.Parse(text).value :: Shaped(f)
  {
    hide Screen, Publication.ReadFiles;
    if Screen(text).Ok? { ReadFilesShaped(Screen(text).value, []); }
  }

  /** The operation is at the section's path, or removes the old path of a rename. */
  predicate OpOf(op: TreeOp, f: FilePatch) {
    op.path == f.Path() || (f.change == Rename && f.oldPath.Some? && op == Remove(f.oldPath.value))
  }

  lemma OpsOfSection(store: BlobStore, base: Blobs, f: FilePatch)
    requires Shaped(f) && FileOps(store, base, f).Ok?
    ensures forall op <- FileOps(store, base, f).value :: OpOf(op, f)
    ensures f.change == Rename ==> f.oldPath.Some? && Remove(f.oldPath.value) in FileOps(store, base, f).value
  {
    hide CleanPath;
  }

  lemma {:induction false} OpOrigin(store: BlobStore, base: Blobs, files: seq<FilePatch>, op: TreeOp) returns (i: nat)
    requires Request(store, base, files).Ok? && op in Request(store, base, files).value
    ensures i < |files| && FileOps(store, base, files[i]).Ok? && op in FileOps(store, base, files[i]).value
  {
    hide FileOps;
    if op in FileOps(store, base, files[0]).value {
      i := 0;
    } else {
      i := OpOrigin(store, base, files[1..], op);
      i := i + 1;
    }
  }

  lemma {:induction false} OpRequested(store: BlobStore, base: Blobs, files: seq<FilePatch>, f: FilePatch, op: TreeOp)
    requires Request(store, base, files).Ok? && f in files && FileOps(store, base, f).Ok?
    requires op in FileOps(store, base, f).value
    ensures op in Request(store, base, files).value
  {
    hide FileOps;
    if f != files[0] { OpRequested(store, base, files[1..], f, op); }
  }

  /** In a diff that both parsers and the policy accept, the path of every section is in scope. */
  lemma AcceptedPathInScope(lib: Library, policy: Policy, text: string, provenance: R.ProvenanceByFile, bytes: int,
                            f: FilePatch)
    requires Screen(text).Ok? ==> forall line <- Screen(text).value :: Agreement.NormalizedLine(line)
    requires Publication.Parse(text).Ok? && R.Parse(text, provenance).Ok?
    requires Accepted(lib, policy, FromParser(R.Parse(text, provenance).value.files), bytes)
    requires f in Publication.Parse(text).value
    ensures InScope(policy, f.Path())
  {
    hide Accepted, Publication.Parse, R.Parse, Screen, Agreement.NormalizedLine, FileReasons, CleanPath, Under,
      Agreement.NoBareBlank, Agreement.AllProvenance, Agreement.SameHunks;
    var p, r := Publication.Parse(text), R.Parse(text, provenance);
    Agreement.ParsersAgree(text, provenance);
    ParsedShaped(text);
    var i :| 0 <= i < |p.value| && p.value[i] == f;
    var c := FromParser(r.value.files)[i];
    assert Agreement.SameFile(p.value[i], r.value.files[i]);
    assert c in FromParser(r.value.files);
    AllowedMeans(lib, policy, FromParser(r.value.files), bytes);
    AcceptedFileInScope(lib, policy, c);
  }

  /**
   * For every diff with normalized paths that both parsers and the policy accept: every path written
   * or removed in the tree request is under an allowed path and under no denied one, if and only if
   * that holds of the old path of every rename section. The policy looks at the new path only.
   */
  lemma RequestStaysInScope(lib: Library, policy: Policy, text: string, provenance: R.ProvenanceByFile, bytes: int,
                            store: BlobStore, base: Blobs)
    requires Screen(text).Ok? ==> forall line <- Screen(text).value :: Agreement.NormalizedLine(line)
    requires Publication.Parse(text).Ok? && R.Parse(text, provenance).Ok?
    requires Accepted(lib, policy, FromParser(R.Parse(text, provenance).value.files), bytes)
    requires Request(store, base, Publication.Parse(text).value).Ok?
    ensures var files := Publication.Parse(text).value;
            (forall op <- Request(store, base, files).value :: InScope(policy, op.path))
            <==> forall f <- files :: f.change == Rename ==> f.oldPath.Some? && InScope(policy, f.oldPath.value)
  {
    hide Accepted, Publication.Parse, R.Parse, Screen, Agreement.NormalizedLine, Request, FileOps, CleanPath, InScope;
    var files := Publication.Parse(text).value;
    var ops := Request(store, base, files).value;
    ParsedShaped(text);
    RequestOk(store, base, files);
    forall f | f in files
      ensures InScope(policy, f.Path())
      ensures f.change == Rename ==> f.oldPath.Some? && Remove(f.oldPath.value) in ops
    {
      AcceptedPathInScope(lib, policy, text, provenance, bytes, f);
      OpsOfSection(store, base, f);
      if f.change == Rename { OpRequested(store, base, files, f, Remove(f.oldPath.value)); }
    }
    forall op | op in ops ensures exists f :: f in files && OpOf(op, f) {
      var i := OpOrigin(store, base, files, op);
      assert files[i] in files;
      OpsOfSection(store, base, files[i]);
    }
    forall f | f in files && f.change == Rename && forall op <- ops :: InScope(policy, op.path)
      ensures InScope(policy, f.oldPath.value)
    {
      assert Remove(f.oldPath.value).path == f.oldPath.value;
    }
  }

  // An accepted rename that removes a denied path.

  const MOVED := FilePatch(Some("key"), Some("new"), Rename, [])
  const COVER: R.ProvenanceByFile := map["new" := R.Provenance(1, ["evidence"])]

  /** Everything is allowed but the path `key`. */
  function ProtectsKey(lib: Library): Policy {
    Policy(100, 100, 100, 1000, ["."], ["key"], [Extension(lib, "new")],
           true, true, true, true, true, true, true, true, true)
  }

  /** A word of plain letters is a clean path and its own single segment. */
  lemma WordIsClean(word: string)
    requires word != "" && forall c <- word :: IsLetter(c)
    ensures CleanPath(word) && Split(word, '/') == [word] && !HasDrive(word) && Slashes(word) == word
    ensures !Includes(word, " b/")
  {
    assert forall c <- word :: !IsLineTerminator(c);
    assert word[0] in word && word[|word| - 1] in word;
    SplitPiece(word, '/');
    AbsentCharacter(word, " b/");
  }

  lemma {:induction false} AbsentCharacter(s: string, needle: string)
    requires needle != "" && needle[0] !in s
    ensures !Includes(s, needle)
  {
    if s != "" { AbsentCharacter(s[1..], needle); }
  }

  lemma {:induction false} JoinLacks(parts: seq<string>, sep: string, c: char)
    requires c !in sep && forall part <- parts :: c !in part
    ensures c !in Join(parts, sep)
  {
    if |parts| > 1 { JoinLacks(parts[1..], sep, c); }
  }

  lemma MovedText()
    ensures Printer.PatchText([MOVED]) == ["diff --git a/key b/new", "rename from key", "rename to new"]
    ensures Printer.SectionText(MOVED) == "diff --git a/key b/new"
  {
    assert "rename from " + "key" == "rename from key" && "rename to " + "new" == "rename to new";
    assert Printer.ModeText(MOVED) == ["rename from key", "rename to new"];
    assert Printer.SidesText(MOVED) == [] && Printer.HunkText([]) == [];
    assert Printer.SectionText(MOVED) == "diff --git a/key b/new";
    assert Printer.FileText(MOVED) == ["diff --git a/key b/new", "rename from key", "rename to new"];
    assert [MOVED][1..] == [] && Printer.PatchText([]) == [];
  }

  lemma LinesLack(c: char)
    requires c in {'G', 'B', '\0', '\r'}
    ensures c !in "diff --git a/key b/new" && c !in "rename from key" && c !in "rename to new"
  {
  }

  lemma MovedLacks(c: char)
    requires c in {'G', 'B', '\0', '\r'}
    ensures c !in Printer.Print([MOVED])
  {
    hide Printer.PatchText, Join;
    MovedText();
    LinesLack(c);
    JoinLacks(Printer.PatchText([MOVED]) + [""], "\n", c);
  }

  lemma MovedPrintable()
    ensures Printer.Printable(Printer.Print([MOVED]))
  {
    hide Includes, Printer.Print;
    var text := Printer.Print([MOVED]);
    MovedLacks('G');
    MovedLacks('B');
    MovedLacks('\0');
    MovedLacks('\r');
    AbsentCharacter(text, "GIT binary patch");
    AbsentCharacter(text, "Binary files ");
    AbsentCharacter(text, "\r\n");
  }

  lemma MovedWellFormed()
    ensures Printer.WellFormedFile(MOVED) && DiffHeader("diff --git a/key b/new") == Some(("key", "new"))
  {
    hide Includes, CleanPath, OpenSection, DiffHeader, Split;
    WordIsClean("key");
    WordIsClean("new");
    Printer.PlainSection(MOVED);
    MovedText();
  }

  lemma MovedParses()
    ensures Publication.Parse(Printer.Print([MOVED])) == Ok([MOVED])
    ensures Screen(Printer.Print([MOVED])) == Ok(Printer.PatchText([MOVED]) + [""])
  {
    hide *;
    MovedWellFormed();
    MovedPrintable();
    Printer.ParsePrint([MOVED]);
    Printer.PrintedScreens([MOVED]);
  }

  lemma MovedNormalized()
    ensures forall line <- Printer.PatchText([MOVED]) + [""] :: Agreement.NormalizedLine(line)
  {
    hide CleanPath, DiffHeader, Split, Includes, Agreement.NormalizedLine;
    WordIsClean("key");
    WordIsClean("new");
    hide Printer.PatchText, Printer.SectionText;
    MovedText();
    MovedWellFormed();
    PlainLines();
    SectionLineNormalized("diff --git a/key b/new");
    SectionLineNormalized("");
    RenameLinesNormalized();
  }

  lemma SectionLineNormalized(line: string)
    requires line == "" || line[0] == 'd'
    requires match DiffHeader(line) case None => true case Some((a, b)) => CleanPath(a) && CleanPath(b)
    ensures Agreement.NormalizedLine(line)
  {
    hide CleanPath, DiffHeader;
  }

  lemma RenameLinesNormalized()
    requires CleanPath("key") && CleanPath("new")
    requires DiffHeader("rename from key").None? && DiffHeader("rename to new").None?
    ensures Agreement.NormalizedLine("rename from key") && Agreement.NormalizedLine("rename to new")
  {
    hide CleanPath, DiffHeader;
    assert "rename from key"[12..] == "key" && "rename to new"[10..] == "new";
    assert "rename from key"[7] != "rename to "[7] && "rename to new"[7] != "rename from "[7];
    assert "rename from key"[0] == 'r' && "rename to new"[0] == 'r';
  }

  lemma PlainLines()
    ensures DiffHeader("rename from key").None? && DiffHeader("rename to new").None? && DiffHeader("").None?
  {
  }

  /** The moved file passes the policy: only its new path is looked at. */
  lemma MovedPasses(lib: Library, file: R.PatchFile)
    requires file.newPath == Some("new") && file.hunks == []
    ensures FileReasons(lib, ProtectsKey(lib), Candidate(file, false, false, false)) == Some([])
  {
    hide CleanPath, Split, Normalize, MatchesPrefix, KindReasons, Extension;
    WordIsClean("new");
    CleanNormalizes("new");
    MovedMatches();
    assert AnyMatch("new", ["."]) == Some(true);
    assert ["key"][1..] == [];
    assert AnyMatch("new", ["key"]) == Some(false);
    var c := Candidate(file, false, false, false);
    GenerousKinds(lib, c);
    assert FileReasons(lib, ProtectsKey(lib), c).value == [];
  }

  lemma MovedMatches()
    ensures MatchesPrefix("new", ".") == Some(true) && MatchesPrefix("new", "key") == Some(false)
  {
    hide Split;
    WordIsClean("key");
    PosixNormalizeClean("key");
  }

  lemma GenerousKinds(lib: Library, c: Candidate)
    requires !c.binary
    ensures KindReasons(lib, ProtectsKey(lib), c, "new") == []
  {
    hide Extension, BaseName, Given;
    var checks := KindChecks(lib, ProtectsKey(lib), c, "new");
    if Given(checks) != [] { GivenMean(checks, Given(checks)[0]); }
  }

  /**
   * A diff of one rename that both parsers accept and the policy allows, although the tree request
   * removes a denied path.
   */
  lemma AcceptedRenameLeavesScope(lib: Library, store: BlobStore, base: Blobs, bytes: int)
    requires "key" in base && bytes <= 1000
    ensures var text, policy := Printer.Print([MOVED]), ProtectsKey(lib);
            && Publication.Parse(text) == Ok([MOVED]) && R.Parse(text, COVER).Ok?
            && (forall line <- Screen(text).value :: Agreement.NormalizedLine(line))
            && Accepted(lib, policy, FromParser(R.Parse(text, COVER).value.files), bytes)
            && Request(store, base, [MOVED]).Ok? && Remove("key") in Request(store, base, [MOVED]).value
            && !InScope(policy, "key")
  {
    hide *;
    MovedParses();
    MovedNormalized();
    var file := MovedRecovered();
    MovedPasses(lib, file);
    MovedBudget(lib, file, bytes);
    var files := FromParser(R.Parse(Printer.Print([MOVED]), COVER).value.files);
    assert files == [Candidate(file, false, false, false)];
    AllowedMeans(lib, ProtectsKey(lib), files, bytes);
    MovedRequest(store, base);
    KeyIsDenied(lib);
  }

  /** What the recovery parser makes of it. */
  lemma MovedRecovered() returns (file: R.PatchFile)
    ensures R.Parse(Printer.Print([MOVED]), COVER).Ok?
    ensures R.Parse(Printer.Print([MOVED]), COVER).value.files == [file]
    ensures file.newPath == Some("new") && file.hunks == [] && file.addedLines == 0 && file.deletedLines == 0
  {
    hide *;
    var text := Printer.Print([MOVED]);
    MovedParses();
    MovedNormalized();
    Agreement.ParsersAgree(text, COVER);
    MovedCovered();
    R.TotalsAreExact(text, COVER);
    file := OnlyFile(R.Parse(text, COVER).value);
  }

  lemma MovedCovered()
    ensures Agreement.AllProvenance([MOVED], COVER)
  {
  }

  lemma OnlyFile(patch: R.ParsedPatch) returns (file: R.PatchFile)
    requires Agreement.SameFiles([MOVED], patch.files) && R.ExactTotals(patch)
    ensures patch.files == [file] && file.newPath == Some("new") && file.hunks == []
    ensures file.addedLines == 0 && file.deletedLines == 0
  {
    hide R.ExactTally, R.SumAdded, R.SumDeleted, R.Growth, Agreement.SameHunk;
    file := patch.files[0];
    assert Agreement.SameFile([MOVED][0], file);
    assert file in patch.files;
    NothingAdded(file);
    assert patch.files == [file];
  }

  lemma NothingAdded(file: R.PatchFile)
    requires file.hunks == [] && R.ExactTally(R.Tally(file.hunks, file.addedLines, file.deletedLines))
    ensures file.addedLines == 0 && file.deletedLines == 0
  {
  }

  lemma MovedBudget(lib: Library, file: R.PatchFile, bytes: int)
    requires file.addedLines == 0 && file.deletedLines == 0 && file.hunks == [] && bytes <= 1000
    ensures BudgetReasons(ProtectsKey(lib), [Candidate(file, false, false, false)], bytes) == []
  {
    var files := [Candidate(file, false, false, false)];
    assert files[1..] == [];
    assert TotalLines([]) == 0 && TotalHunks([]) == 0;
    assert TotalLines(files) == 0 && TotalHunks(files) == |files[0].file.hunks| + TotalHunks([]);
  }

  lemma MovedRequest(store: BlobStore, base: Blobs)
    requires "key" in base
    ensures Request(store, base, [MOVED]).Ok? && Remove("key") in Request(store, base, [MOVED]).value
  {
  }

  lemma KeyIsDenied(lib: Library)
    ensures !InScope(ProtectsKey(lib), "key")
  {
    hide Split, Extension;
    WordIsClean("key");
    PosixNormalizeClean("key");
    assert "key" in ProtectsKey(lib).deniedPaths && Under("key", "key");
  }
}
