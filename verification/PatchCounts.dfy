/** What the counts of an admitted patch count: the added and removed lines of its hunks, read off their content. */
module PatchCounts {
  import opened Wrappers
  import opened Text
  import opened Paths
  import opened PatchFormat
  import R = RecoveryParser
  import P = PublicationParser
  import Agreement = ParserAgreement
  import Printer = PatchPrinter

  /** Lines that start with `+` and not `+++`. */
  function Added(lines: seq<string>): nat {
    if lines == [] then 0 else (if "+" <= lines[0] && !("+++" <= lines[0]) then 1 else 0) + Added(lines[1..])
  }

  /** Lines that start with `-` and not `---`. */
  function Removed(lines: seq<string>): nat {
    if lines == [] then 0 else (if "-" <= lines[0] && !("---" <= lines[0]) then 1 else 0) + Removed(lines[1..])
  }

  /** Lines that start with a space. */
  function Context(lines: seq<string>): nat {
    if lines == [] then 0 else (if " " <= lines[0] then 1 else 0) + Context(lines[1..])
  }

  /** The numbers of a hunk are those of the lines of its content after the header. */
  predicate Counted(h: R.PatchHunk) {
    var lines := Split(h.content, '\n');
    && lines[0] == h.header
    && h.addedLines == Added(lines[1..]) && h.deletedLines == Removed(lines[1..])
    && h.oldLines == Removed(lines[1..]) + Context(lines[1..]) && h.newLines == Added(lines[1..]) + Context(lines[1..])
  }

  lemma {:induction false} CountsAppend(lines: seq<string>, line: string)
    ensures Added(lines + [line]) == Added(lines) + Added([line])
    ensures Removed(lines + [line]) == Removed(lines) + Removed([line])
    ensures Context(lines + [line]) == Context(lines) + Context([line])
  {
    if lines == [] {
      assert [] + [line] == [line];
    } else {
      assert (lines + [line])[1..] == lines[1..] + [line];
      CountsAppend(lines[1..], line);
    }
  }

  lemma CountsOne(line: string)
    ensures Added([line]) == (if IsAddition(line) then 1 else 0)
    ensures Removed([line]) == (if IsRemoval(line) then 1 else 0)
    ensures Context([line]) == (if IsContext(line) then 1 else 0)
    ensures IsAddition(line) ==> !IsRemoval(line) && !IsContext(line)
    ensures IsRemoval(line) ==> !IsContext(line)
    ensures line == NO_NEWLINE || line == "" ==> !IsAddition(line) && !IsRemoval(line) && !IsContext(line)
  {
    assert "+" <= line ==> line[0] == '+';
    assert "-" <= line ==> line[0] == '-';
    assert " " <= line ==> line[0] == ' ';
    assert NO_NEWLINE[0] == '\\';
    assert [line][1..] == [];
  }

  /** What the content loop has seen so far. */
  ghost predicate Seen(body: R.Body) {
    && body.content != [] && Agreement.UnbrokenLines(body.content)
    && body.added == Added(body.content[1..]) && body.deleted == Removed(body.content[1..])
    && body.oldSeen == Removed(body.content[1..]) + Context(body.content[1..])
    && body.newSeen == Added(body.content[1..]) + Context(body.content[1..])
  }

  lemma SeenMore(body: R.Body, line: string)
    requires Seen(body) && '\n' !in line
    ensures var grown := body.(content := body.content + [line]);
            && (IsAddition(line) ==> Seen(grown.(newSeen := body.newSeen + 1, added := body.added + 1)))
            && (IsRemoval(line) ==> Seen(grown.(oldSeen := body.oldSeen + 1, deleted := body.deleted + 1)))
            && (IsContext(line) ==> Seen(grown.(oldSeen := body.oldSeen + 1, newSeen := body.newSeen + 1)))
            && (line == NO_NEWLINE || line == "" ==> Seen(grown))
  {
    hide Added, Removed, Context;
    assert (body.content + [line])[1..] == body.content[1..] + [line];
    CountsAppend(body.content[1..], line);
    CountsOne(line);
  }

  lemma {:induction false} BodySeen(rest: seq<string>, body: R.Body)
    requires Seen(body) && Agreement.UnbrokenLines(rest)
    ensures var r := R.ReadBody(rest, body);
            r.Ok? ==> Seen(r.value.0) && r.value.0.content[0] == body.content[0]
  {
    hide Seen;
    HeadKept(body);
    if rest != [] && !StartsHunk(rest[0]) && !StartsSection(rest[0]) {
      var line := rest[0];
      var grown := body.(content := body.content + [line]);
      SeenMore(body, line);
      HeadKept(grown);
      if IsAddition(line) { BodySeen(rest[1..], grown.(newSeen := body.newSeen + 1, added := body.added + 1)); }
      else if IsRemoval(line) { BodySeen(rest[1..], grown.(oldSeen := body.oldSeen + 1, deleted := body.deleted + 1)); }
      else if IsContext(line) { BodySeen(rest[1..], grown.(oldSeen := body.oldSeen + 1, newSeen := body.newSeen + 1)); }
      else if line == NO_NEWLINE || (line == "" && |rest| > 1) { BodySeen(rest[1..], grown); }
    }
  }

  lemma HeadKept(body: R.Body)
    ensures Seen(body) ==> body.content != []
  {
  }

  lemma SeenHeader(header: string)
    requires '\n' !in header
    ensures Seen(R.Body([header], 0, 0, 0, 0))
  {
    assert [header][1..] == [];
  }

  lemma HunkCounted(rest: seq<string>, sequence: nat, provenance: R.Provenance)
    requires rest != [] && Agreement.UnbrokenLines(rest)
    ensures var r := R.ReadHunk(rest, sequence, provenance); r.Ok? ==> Counted(r.value.0)
  {
    hide HunkHeader, R.ReadBody, Join, Split, Added, Removed, Context;
    SeenHeader(rest[0]);
    BodySeen(rest[1..], R.Body([rest[0]], 0, 0, 0, 0));
    var read := R.ReadBody(rest[1..], R.Body([rest[0]], 0, 0, 0, 0));
    if read.Ok? { SplitJoin(read.value.0.content, '\n'); }
  }

  lemma {:induction false} HunksCounted(rest: seq<string>, provenance: R.Provenance, tally: R.Tally)
    requires Agreement.UnbrokenLines(rest) && forall h <- tally.hunks :: Counted(h)
    ensures var r := R.ReadHunks(rest, provenance, tally); r.Ok? ==> forall h <- r.value.0.hunks :: Counted(h)
    decreases |rest|
  {
    hide R.ReadHunk, Counted;
    if rest != [] && !StartsSection(rest[0]) {
      if rest[0] == "" {
        HunksCounted(rest[1..], provenance, tally);
      } else {
        var r := R.ReadHunk(rest, |tally.hunks| + 1, provenance);
        if r.Ok? {
          HunkCounted(rest, |tally.hunks| + 1, provenance);
          Agreement.SuffixKeeps(rest, |tally.hunks| + 1, provenance);
          Agreement.SuffixLines(r.value.1, rest);
          HunksCounted(r.value.1, provenance, tally.With(r.value.0));
        }
      }
    }
  }

  ghost predicate AllCounted(patch: R.ParsedPatch) { forall f <- patch.files, h <- f.hunks :: Counted(h) }

  lemma {:induction false} FilesCounted(rest: seq<string>, provenance: R.ProvenanceByFile, patch: R.ParsedPatch)
    requires Agreement.UnbrokenLines(rest) && AllCounted(patch)
    ensures var r := R.ReadFiles(rest, provenance, patch); r.Ok? ==> AllCounted(r.value)
    decreases |rest|
  {
    hide OpenSection, ReadHeader, R.ReadHunks, Counted;
    if rest != [] {
      if rest[0] == "" {
        FilesCounted(rest[1..], provenance, patch);
      } else {
        var start := OpenSection(Recovery, rest[0]);
        if start.Ok? {
          var header := ReadHeader(Recovery, rest[1..], start.value);
          if header.Ok? {
            var section := header.value.0.Resolved();
            var path := section.EffectivePath();
            if path != "" && R.HasProvenance(provenance, path) {
              Agreement.HeaderSuffix(Recovery, rest[1..], start.value);
              Agreement.SuffixLines(header.value.1, rest[1..]);
              SectionCounted(header.value.1, provenance, patch, section, path);
              var h := R.ReadHunks(header.value.1, provenance[path], R.Tally([], 0, 0));
              if h.Ok? && (h.value.0.hunks != [] || section.renameFrom != "") {
                FilesCounted(h.value.1, provenance, R.Extend(patch, section, h.value.0));
              }
            }
          }
        }
      }
    }
  }

  lemma SectionCounted(rest: seq<string>, provenance: R.ProvenanceByFile, patch: R.ParsedPatch, section: Section,
                       path: string)
    requires Agreement.UnbrokenLines(rest) && AllCounted(patch) && path in provenance
    ensures var h := R.ReadHunks(rest, provenance[path], R.Tally([], 0, 0));
            h.Ok? ==> AllCounted(R.Extend(patch, section, h.value.0)) && Agreement.UnbrokenLines(h.value.1)
  {
    hide R.ReadHunks, Counted;
    HunksCounted(rest, provenance[path], R.Tally([], 0, 0));
    Agreement.HunkListGrows(rest, provenance[path], R.Tally([], 0, 0));
    var h := R.ReadHunks(rest, provenance[path], R.Tally([], 0, 0));
    if h.Ok? { Agreement.SuffixLines(h.value.1, rest); }
  }

  /**
   * In every accepted patch the added and deleted lines of each hunk are the lines of its content that
   * start with `+` and not `+++`, and with `-` and not `---`; its header counts those and the context
   * lines; and the totals of files and patch are the sums of these.
   */
  lemma CountsAreExact(text: string, provenance: R.ProvenanceByFile)
    ensures R.Parse(text, provenance).Ok? ==>
              var patch := R.Parse(text, provenance).value;
              && (forall f <- patch.files, h <- f.hunks :: Counted(h))
              && (forall f <- patch.files ::
                    f.addedLines == LinesAdded(f.hunks) && f.deletedLines == LinesRemoved(f.hunks))
              && patch.addedLines == R.SumAdded(patch.files) && patch.deletedLines == R.SumDeleted(patch.files)
  {
    hide Screen, R.ReadFiles, Counted;
    R.TotalsAreExact(text, provenance);
    if Screen(text).Ok? {
      ScreenUnbroken(text);
      FilesCounted(Screen(text).value, provenance, R.NOTHING);
      if R.Parse(text, provenance).Ok? {
        var patch := R.Parse(text, provenance).value;
        forall f | f in patch.files
          ensures f.addedLines == LinesAdded(f.hunks) && f.deletedLines == LinesRemoved(f.hunks)
        {
          assert R.ExactTally(R.Tally(f.hunks, f.addedLines, f.deletedLines));
          LinesSummed(f.hunks);
        }
      }
    }
  }

  lemma ScreenUnbroken(text: string)
    ensures Screen(text).Ok? ==> Agreement.UnbrokenLines(Screen(text).value)
  {
    hide UnixNewlines;
  }

  /** The added lines of a file, over the contents of its hunks. */
  function LinesAdded(hunks: seq<R.PatchHunk>): nat {
    if hunks == [] then 0 else Added(Split(hunks[0].content, '\n')[1..]) + LinesAdded(hunks[1..])
  }

  function LinesRemoved(hunks: seq<R.PatchHunk>): nat {
    if hunks == [] then 0 else Removed(Split(hunks[0].content, '\n')[1..]) + LinesRemoved(hunks[1..])
  }

  lemma {:induction false} LinesSummed(hunks: seq<R.PatchHunk>)
    requires forall h <- hunks :: Counted(h)
    ensures R.HunksAdded(hunks) == LinesAdded(hunks) && R.HunksDeleted(hunks) == LinesRemoved(hunks)
  {
    hide Split, Added, Removed, Context;
    if hunks != [] {
      assert hunks[0] in hunks;
      LinesSummed(hunks[1..]);
    }
  }

  // Every hunk carries the provenance given for its file.

  lemma {:induction false} HunksProven(rest: seq<string>, provenance: R.Provenance, tally: R.Tally)
    requires forall h <- tally.hunks :: h.provenance == provenance
    ensures var r := R.ReadHunks(rest, provenance, tally);
            r.Ok? ==> forall h <- r.value.0.hunks :: h.provenance == provenance
    decreases |rest|
  {
    if rest != [] && !StartsSection(rest[0]) {
      if rest[0] == "" {
        HunksProven(rest[1..], provenance, tally);
      } else {
        var r := R.ReadHunk(rest, |tally.hunks| + 1, provenance);
        if r.Ok? { HunksProven(r.value.1, provenance, tally.With(r.value.0)); }
      }
    }
  }

  /** The file has provenance that cites evidence, and each of its hunks carries it. */
  ghost predicate Proven(provenance: R.ProvenanceByFile, f: R.PatchFile) {
    && f.Path() in provenance && |provenance[f.Path()].citations| > 0
    && forall h <- f.hunks :: h.provenance == provenance[f.Path()]
  }

  lemma {:induction false} FilesProven(rest: seq<string>, provenance: R.ProvenanceByFile, patch: R.ParsedPatch)
    requires forall f <- patch.files :: Proven(provenance, f)
    ensures var r := R.ReadFiles(rest, provenance, patch); r.Ok? ==> forall f <- r.value.files :: Proven(provenance, f)
    decreases |rest|
  {
    hide OpenSection, ReadHeader, R.ReadHunks;
    if rest != [] {
      if rest[0] == "" {
        FilesProven(rest[1..], provenance, patch);
      } else {
        var start := OpenSection(Recovery, rest[0]);
        if start.Ok? {
          var header := ReadHeader(Recovery, rest[1..], start.value);
          if header.Ok? {
            var section := header.value.0.Resolved();
            var path := section.EffectivePath();
            if path != "" && R.HasProvenance(provenance, path) {
              HunksProven(header.value.1, provenance[path], R.Tally([], 0, 0));
              var h := R.ReadHunks(header.value.1, provenance[path], R.Tally([], 0, 0));
              if h.Ok? && (h.value.0.hunks != [] || section.renameFrom != "") {
                FilesProven(h.value.1, provenance, R.Extend(patch, section, h.value.0));
              }
            }
          }
        }
      }
    }
  }

  /** An accepted patch cites evidence for every file, and each hunk carries what was given for its file. */
  lemma ProvenanceIsCarried(text: string, provenance: R.ProvenanceByFile)
    ensures R.Parse(text, provenance).Ok? ==> forall f <- R.Parse(text, provenance).value.files :: Proven(provenance, f)
  {
    hide Screen, R.ReadFiles;
    if Screen(text).Ok? { FilesProven(Screen(text).value, provenance, R.NOTHING); }
  }

  // The publication parser accepts well-formed hunks only.

  ghost predicate SoFar(body: P.Body) {
    && (forall line <- body.lines :: Printer.BodyLine(line))
    && body.oldSeen == Printer.OldCount(body.lines) && body.newSeen == Printer.NewCount(body.lines)
  }

  lemma {:induction false} PrinterCountsAppend(lines: seq<string>, line: string)
    ensures Printer.OldCount(lines + [line]) == Printer.OldCount(lines) + Printer.OldCount([line])
    ensures Printer.NewCount(lines + [line]) == Printer.NewCount(lines) + Printer.NewCount([line])
  {
    if lines == [] {
      assert [] + [line] == [line];
    } else {
      assert (lines + [line])[1..] == lines[1..] + [line];
      PrinterCountsAppend(lines[1..], line);
    }
  }

  lemma SoFarMore(body: P.Body, line: string)
    requires SoFar(body) && '\n' !in line
    ensures var grown := body.(lines := body.lines + [line]);
            && (IsAddition(line) ==> SoFar(grown.(newSeen := body.newSeen + 1)))
            && (IsRemoval(line) ==> SoFar(grown.(oldSeen := body.oldSeen + 1)))
            && (IsContext(line) ==> SoFar(grown.(oldSeen := body.oldSeen + 1, newSeen := body.newSeen + 1)))
            && (line == NO_NEWLINE ==> SoFar(grown))
  {
    PrinterCountsAppend(body.lines, line);
    CountsOne(line);
    assert [line][1..] == [];
  }

  lemma {:induction false} BodySoFar(rest: seq<string>, body: P.Body)
    requires SoFar(body) && Agreement.UnbrokenLines(rest)
    ensures var r := P.ReadBody(rest, body); r.Ok? ==> SoFar(r.value.0)
  {
    hide SoFar;
    if rest != [] && !StartsHunk(rest[0]) && !StartsSection(rest[0]) && !(rest[0] == "" && |rest| == 1) {
      var line := rest[0];
      var grown := body.(lines := body.lines + [line]);
      SoFarMore(body, line);
      if IsAddition(line) { BodySoFar(rest[1..], grown.(newSeen := body.newSeen + 1)); }
      else if IsRemoval(line) { BodySoFar(rest[1..], grown.(oldSeen := body.oldSeen + 1)); }
      else if IsContext(line) {
        BodySoFar(rest[1..], grown.(oldSeen := body.oldSeen + 1, newSeen := body.newSeen + 1));
      }
      else if line == NO_NEWLINE { BodySoFar(rest[1..], grown); }
    }
  }

  lemma {:induction false} HunksWellFormed(rest: seq<string>, hunks: seq<Hunk>)
    requires Agreement.UnbrokenLines(rest) && forall h <- hunks :: Printer.WellFormedHunk(h)
    ensures var r := P.ReadHunks(rest, hunks); r.Ok? ==> forall h <- r.value.0 :: Printer.WellFormedHunk(h)
    decreases |rest|
  {
    hide HunkHeader, P.ReadBody;
    if rest != [] && !StartsSection(rest[0]) {
      if rest[0] == "" {
        HunksWellFormed(rest[1..], hunks);
      } else {
        BodySoFar(rest[1..], P.Body([], 0, 0));
        P.BodyTail(rest[1..], P.Body([], 0, 0));
        var read := P.ReadHunk(rest);
        if read.Ok? { HunksWellFormed(read.value.1, hunks + [read.value.0]); }
      }
    }
  }

  ghost predicate HunksFit(f: FilePatch) { forall h <- f.hunks :: Printer.WellFormedHunk(h) }

  lemma {:induction false} FilesWellFormed(rest: seq<string>, files: seq<FilePatch>)
    requires Agreement.UnbrokenLines(rest) && forall f <- files :: HunksFit(f)
    ensures var r := P.ReadFiles(rest, files); r.Ok? ==> forall f <- r.value :: HunksFit(f)
    decreases |rest|
  {
    hide OpenSection, ReadHeader, P.ReadHunks, Printer.WellFormedHunk;
    if rest != [] {
      if rest[0] == "" {
        FilesWellFormed(rest[1..], files);
      } else {
        var start := OpenSection(Publication, rest[0]);
        if start.Ok? {
          var header := ReadHeader(Publication, rest[1..], start.value);
          if header.Ok? {
            Agreement.HeaderSuffix(Publication, rest[1..], start.value);
            Agreement.SuffixLines(header.value.1, rest[1..]);
            HunksWellFormed(header.value.1, []);
            P.HunksTail(header.value.1, []);
            var section, hunks := header.value.0.Resolved(), P.ReadHunks(header.value.1, []);
            if hunks.Ok? {
              var file := FilePatch(section.oldPath, section.newPath, section.Change(), hunks.value.0);
              FilesWellFormed(hunks.value.1, files + [file]);
            }
          }
        }
      }
    }
  }

  /** Whatever the publication parser accepts has hunks of known lines only, with the counts their headers declare. */
  lemma AcceptedHunksAreWellFormed(text: string)
    ensures P.Parse(text).Ok? ==> forall f <- P.Parse(text).value, h <- f.hunks :: Printer.WellFormedHunk(h)
  {
    hide Screen, P.ReadFiles, Printer.WellFormedHunk;
    if Screen(text).Ok? {
      ScreenUnbroken(text);
      FilesWellFormed(Screen(text).value, []);
      if P.Parse(text).Ok? { assert forall f <- P.Parse(text).value :: HunksFit(f); }
    }
  }
}
