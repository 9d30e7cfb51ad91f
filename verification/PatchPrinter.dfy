/** The git-style rendering of file patches, and the proof that the publication parser inverts it. */
module PatchPrinter {
  import opened Wrappers
  import opened Text
  import opened Paths
  import opened PatchFormat
  import P = PublicationParser

  // Rendering.

  /** `start,count`, with the count left out when it is 1. */
  function RangeText(start: nat, count: nat): string {
    Digits(start) + (if count == 1 then "" else "," + Digits(count))
  }

  function HunkHeaderText(h: Hunk): string {
    "@@ -" + RangeText(h.oldStart, h.oldLines) + " +" + RangeText(h.newStart, h.newLines) + " @@"
  }

  function HunkText(hunks: seq<Hunk>): seq<string> {
    if hunks == [] then [] else [HunkHeaderText(hunks[0])] + hunks[0].lines + HunkText(hunks[1..])
  }

  function SideText(path: Option<string>, prefix: string): string {
    if path.None? then "/dev/null" else prefix + path.value
  }

  /** The path a `diff --git` line shows for a side: the other side's when this one is absent. */
  function ShownPath(side: Option<string>, other: Option<string>): string {
    if side.Some? then side.value else if other.Some? then other.value else ""
  }

  function SectionText(f: FilePatch): string {
    "diff --git a/" + ShownPath(f.oldPath, f.newPath) + " b/" + ShownPath(f.newPath, f.oldPath)
  }

  function ModeText(f: FilePatch): seq<string> {
    match f.change
    case Add => ["new file mode 100644"]
    case Delete => ["deleted file mode 100644"]
    case Rename => ["rename from " + ShownPath(f.oldPath, f.newPath), "rename to " + ShownPath(f.newPath, f.oldPath)]
    case Modify => []
  }

  function SidesText(f: FilePatch): seq<string> {
    if f.hunks == [] then [] else ["--- " + SideText(f.oldPath, "a/"), "+++ " + SideText(f.newPath, "b/")]
  }

  function FileText(f: FilePatch): seq<string> { [SectionText(f)] + ModeText(f) + SidesText(f) + HunkText(f.hunks) }

  function PatchText(files: seq<FilePatch>): seq<string> {
    if files == [] then [] else FileText(files[0]) + PatchText(files[1..])
  }

  /** The rendered patch, every line terminated. */
  function Print(files: seq<FilePatch>): string { Join(PatchText(files) + [""], "\n") }

  // Well-formed patches.

  predicate BodyLine(line: string) {
    '\n' !in line && (IsAddition(line) || IsRemoval(line) || IsContext(line) || line == NO_NEWLINE)
  }

  function OldCount(lines: seq<string>): nat {
    if lines == [] then 0
    else (if IsRemoval(lines[0]) || IsContext(lines[0]) then 1 else 0) + OldCount(lines[1..])
  }

  function NewCount(lines: seq<string>): nat {
    if lines == [] then 0
    else (if IsAddition(lines[0]) || IsContext(lines[0]) then 1 else 0) + NewCount(lines[1..])
  }

  predicate WellFormedHunk(h: Hunk) {
    && (forall line <- h.lines :: BodyLine(line))
    && h.oldLines == OldCount(h.lines) && h.newLines == NewCount(h.lines)
  }

  predicate CleanOption(path: Option<string>) { path.Some? ==> CleanPath(path.value) }

  predicate WellFormedFile(f: FilePatch) {
    && CleanOption(f.oldPath) && CleanOption(f.newPath)
    && (f.oldPath.None? <==> f.change == Add)
    && (f.newPath.None? <==> f.change == Delete)
    && (f.hunks == [] ==> f.change == Rename)
    && (forall h <- f.hunks :: WellFormedHunk(h))
    // The greedy ` b/` split of the section line must not produce an unsafe path; see `PlainSection`.
    && OpenSection(Publication, SectionText(f)).Ok?
  }

  /** What the parser refuses or rewrites in the raw text, whatever its structure. */
  predicate Printable(text: string) {
    && !Includes(text, "GIT binary patch") && !Includes(text, "Binary files ")
    && '\0' !in text && !Includes(text, "\r\n")
  }

  // Headers.

  lemma RangeRoundTrip(start: nat, count: nat, tail: string)
    requires tail != "" && tail[0] == ' '
    ensures HunkRange(RangeText(start, count) + tail) == Some((start, count, tail))
  {
    hide DigitRun, DigitsValue, Digits;
    var digits := Digits(start);
    var s := RangeText(start, count) + tail;
    DigitsRoundTrip(start);
    DigitsRoundTrip(count);
    if count == 1 {
      assert s == digits + tail;
      DigitRunOf(digits, tail);
      assert s[..|digits|] == digits && s[|digits|..] == tail;
    } else {
      var counts := Digits(count);
      assert s == digits + ("," + counts + tail);
      DigitRunOf(digits, "," + counts + tail);
      assert s[..|digits|] == digits && s[|digits|..] == "," + counts + tail;
      assert ("," + counts + tail)[1..] == counts + tail;
      DigitRunOf(counts, tail);
      assert (counts + tail)[..|counts|] == counts && (counts + tail)[|counts|..] == tail;
    }
  }

  lemma HunkHeaderRoundTrip(h: Hunk)
    ensures HunkHeader(HunkHeaderText(h)) == Some(Ranges(h.oldStart, h.oldLines, h.newStart, h.newLines))
  {
    hide HunkRange, RangeText;
    var line := HunkHeaderText(h);
    var after := " +" + RangeText(h.newStart, h.newLines) + " @@";
    assert line[4..] == RangeText(h.oldStart, h.oldLines) + after;
    RangeRoundTrip(h.oldStart, h.oldLines, after);
    assert after[2..] == RangeText(h.newStart, h.newLines) + " @@";
    RangeRoundTrip(h.newStart, h.newLines, " @@");
  }

  // Bodies and hunks.

  /** What may follow a hunk list or a file: the final "" of the text, or another section. */
  predicate Boundary(tail: seq<string>) { tail == [""] || (tail != [] && StartsSection(tail[0])) }

  predicate BodyBoundary(tail: seq<string>) { Boundary(tail) || (tail != [] && StartsHunk(tail[0])) }

  /** The final "" is consumed by whichever loop meets it. */
  function After(tail: seq<string>): seq<string> { if tail == [""] then [] else tail }

  /** One content line: kept, and counted on the sides it belongs to. */
  function Grow(line: string, body: P.Body): P.Body {
    P.Body(body.lines + [line], body.oldSeen + OldCount([line]), body.newSeen + NewCount([line]))
  }

  lemma BodyStep(line: string, rest: seq<string>, body: P.Body)
    requires BodyLine(line)
    ensures P.ReadBody([line] + rest, body) == P.ReadBody(rest, Grow(line, body))
  {
    assert NO_NEWLINE[0] == '\\';
    assert line != "" && line[0] in "+- \\";
    assert !StartsHunk(line) && !StartsSection(line);
    assert [line][1..] == [];
    assert OldCount([line]) == if IsRemoval(line) || IsContext(line) then 1 else 0;
    assert NewCount([line]) == if IsAddition(line) || IsContext(line) then 1 else 0;
    var all := [line] + rest;
    assert all[0] == line && all[1..] == rest;
    var grown := body.(lines := body.lines + [line]);
    if IsAddition(line) {
      assert line[0] == '+';
      assert Grow(line, body) == grown.(newSeen := body.newSeen + 1);
    } else if IsRemoval(line) {
      assert line[0] == '-';
      assert Grow(line, body) == grown.(oldSeen := body.oldSeen + 1);
    } else if IsContext(line) {
      assert Grow(line, body) == grown.(oldSeen := body.oldSeen + 1, newSeen := body.newSeen + 1);
    } else {
      assert Grow(line, body) == grown;
    }
  }

  lemma CountsSplit(lines: seq<string>)
    requires lines != []
    ensures OldCount(lines) == OldCount([lines[0]]) + OldCount(lines[1..])
    ensures NewCount(lines) == NewCount([lines[0]]) + NewCount(lines[1..])
  {
    assert [lines[0]][1..] == [];
  }

  lemma {:induction false} BodyRoundTrip(lines: seq<string>, tail: seq<string>, body: P.Body)
    requires BodyBoundary(tail) && forall line <- lines :: BodyLine(line)
    ensures P.ReadBody(lines + tail, body)
         == Ok((P.Body(body.lines + lines, body.oldSeen + OldCount(lines), body.newSeen + NewCount(lines)),
             After(tail)))
  {
    if lines == [] {
      assert lines + tail == tail && body.lines + lines == body.lines;
    } else {
      hide P.ReadBody, BodyLine, IsAddition, IsRemoval, IsContext;
      var line := lines[0];
      assert lines + tail == [line] + (lines[1..] + tail);
      assert body.lines + lines == (body.lines + [line]) + lines[1..];
      BodyStep(line, lines[1..] + tail, body);
      CountsSplit(lines);
      BodyRoundTrip(lines[1..], tail, Grow(line, body));
    }
  }

  lemma HunkRoundTrip(h: Hunk, next: seq<string>)
    requires BodyBoundary(next) && WellFormedHunk(h)
    ensures P.ReadHunk([HunkHeaderText(h)] + h.lines + next) == Ok((h, After(next)))
  {
    hide HunkHeader, HunkHeaderText, P.ReadBody, BodyLine;
    var rest := [HunkHeaderText(h)] + h.lines + next;
    HunkHeaderRoundTrip(h);
    assert rest[0] == HunkHeaderText(h) && rest[1..] == h.lines + next;
    BodyRoundTrip(h.lines, next, P.Body([], 0, 0));
    assert [] + h.lines == h.lines;
  }

  lemma HunkStep(h: Hunk, next: seq<string>, acc: seq<Hunk>)
    requires BodyBoundary(next) && WellFormedHunk(h)
    ensures P.ReadHunks([HunkHeaderText(h)] + h.lines + next, acc) == P.ReadHunks(After(next), acc + [h])
  {
    hide P.ReadHunk, HunkHeaderText, WellFormedHunk;
    HeaderTextStarts(h);
    HunkRoundTrip(h, next);
    assert ([HunkHeaderText(h)] + h.lines + next)[0] == HunkHeaderText(h);
  }

  lemma HunksEnd(tail: seq<string>, acc: seq<Hunk>)
    requires Boundary(tail)
    ensures P.ReadHunks(tail, acc) == P.ReadHunks(After(tail), acc) == Ok((acc, After(tail)))
  {
    if tail == [""] { assert tail[1..] == []; }
  }

  lemma {:induction false} HunksRoundTrip(hunks: seq<Hunk>, tail: seq<string>, acc: seq<Hunk>)
    requires Boundary(tail) && forall h <- hunks :: WellFormedHunk(h)
    ensures P.ReadHunks(HunkText(hunks) + tail, acc) == Ok((acc + hunks, After(tail)))
  {
    hide P.ReadHunks, HunkHeaderText, WellFormedHunk;
    if hunks == [] {
      assert HunkText(hunks) + tail == tail && acc + hunks == acc;
      HunksEnd(tail, acc);
    } else {
      var h := hunks[0];
      var next := HunkText(hunks[1..]) + tail;
      if hunks[1..] != [] { HeaderTextStarts(hunks[1]); }
      assert HunkText(hunks) + tail == [HunkHeaderText(h)] + h.lines + next;
      HunkStep(h, next, acc);
      HunksRoundTrip(hunks[1..], tail, acc + [h]);
      assert (acc + [h]) + hunks[1..] == acc + hunks;
      if hunks[1..] == [] {
        assert next == tail;
        HunksEnd(tail, acc + [h]);
      }
    }
  }

  lemma HeaderTextStarts(h: Hunk)
    ensures StartsHunk(HunkHeaderText(h)) && !StartsSection(HunkHeaderText(h)) && HunkHeaderText(h) != ""
  {
    assert HunkHeaderText(h)[0] == '@';
  }

  // Extended headers.

  lemma SideRoundTrip(path: Option<string>, prefix: string)
    requires CleanOption(path) && (prefix == "a/" || prefix == "b/")
    ensures SidePath(Publication, SideText(path, prefix), prefix) == Ok(path)
  {
    hide NormalizePatchPath;
    if path.Some? {
      var text := SideText(path, prefix);
      assert prefix <= text && text[|prefix|..] == path.value;
      CleanPathIsFixed(Publication, path.value);
      assert path.value[0] != '/' by { FirstSegmentEmpty(path.value); }
      assert path.value != "/dev/null" by { assert "/dev/null"[0] == '/'; }
    } else {
      assert "/dev/null"[0] == '/' && prefix[0] != '/';
    }
  }

  lemma ReadSideLines(f: FilePatch, section: Section)
    requires CleanOption(f.oldPath) && CleanOption(f.newPath)
    ensures ReadHeaderLine(Publication, "--- " + SideText(f.oldPath, "a/"), section)
          == Ok(section.(oldPath := f.oldPath))
    ensures ReadHeaderLine(Publication, "+++ " + SideText(f.newPath, "b/"), section)
          == Ok(section.(newPath := f.newPath))
  {
    hide SideText, SidePath, CleanPath, NormalizePatchPath;
    SideRoundTrip(f.oldPath, "a/");
    SideRoundTrip(f.newPath, "b/");
    var minus, plus := "--- " + SideText(f.oldPath, "a/"), "+++ " + SideText(f.newPath, "b/");
    assert minus[4..] == SideText(f.oldPath, "a/") && plus[4..] == SideText(f.newPath, "b/");
    assert minus[0] == '-' && plus[0] == '+';
  }

  lemma ReadRenameLines(p: string, section: Section)
    requires CleanPath(p)
    ensures ReadHeaderLine(Publication, "rename from " + p, section) == Ok(section.(renameFrom := p))
    ensures ReadHeaderLine(Publication, "rename to " + p, section) == Ok(section.(renameTo := p))
  {
    hide CleanPath, NormalizePatchPath;
    CleanPathIsFixed(Publication, p);
    var from, to := "rename from " + p, "rename to " + p;
    assert from[12..] == p && to[10..] == p;
    assert to[7] == 't' && "rename from "[7] == 'f';
    assert from[0] == 'r' && to[0] == 'r';
  }

  /** Lines of an extended header, one at a time. */
  lemma HeaderStep(line: string, tail: seq<string>, section: Section, next: Section)
    requires !StartsHunk(line) && !StartsSection(line)
    requires ReadHeaderLine(Publication, line, section) == Ok(next)
    ensures ReadHeader(Publication, [line] + tail, section) == ReadHeader(Publication, tail, next)
  {
    hide ReadHeaderLine;
    assert ([line] + tail)[1..] == tail;
  }

  /** The section that the mode lines of a rendered file produce. */
  function Marked(f: FilePatch, section: Section): Section {
    match f.change
    case Add => section.(newFile := true)
    case Delete => section.(deletedFile := true)
    case Rename => section.(renameFrom := ShownPath(f.oldPath, f.newPath), renameTo := ShownPath(f.newPath, f.oldPath))
    case Modify => section
  }

  lemma ModeLines(f: FilePatch, tail: seq<string>, section: Section)
    requires WellFormedFile(f)
    ensures ReadHeader(Publication, ModeText(f) + tail, section) == ReadHeader(Publication, tail, Marked(f, section))
  {
    hide ReadHeader, ReadHeaderLine, CleanPath, OpenSection, WellFormedHunk;
    match f.change
    case Add =>
      NewFileLine(section);
      HeaderStep("new file mode 100644", tail, section, section.(newFile := true));
    case Delete =>
      DeletedFileLine(section);
      HeaderStep("deleted file mode 100644", tail, section, section.(deletedFile := true));
    case Rename =>
      var a, b := ShownPath(f.oldPath, f.newPath), ShownPath(f.newPath, f.oldPath);
      ReadRenameLines(a, section);
      ReadRenameLines(b, section.(renameFrom := a));
      var from, to := "rename from " + a, "rename to " + b;
      assert from[0] == 'r' && to[0] == 'r';
      HeaderStep(from, [to] + tail, section, section.(renameFrom := a));
      HeaderStep(to, tail, section.(renameFrom := a), Marked(f, section));
      assert ModeText(f) + tail == [from] + ([to] + tail);
    case Modify =>
      assert ModeText(f) + tail == tail;
  }

  lemma NewFileLine(section: Section)
    ensures var line := "new file mode 100644";
            !StartsHunk(line) && !StartsSection(line)
                && ReadHeaderLine(Publication, line, section) == Ok(section.(newFile := true))
  {
    hide NormalizePatchPath, SidePath;
    var line := "new file mode 100644";
    assert line[0] == 'n';
  }

  lemma DeletedFileLine(section: Section)
    ensures var line := "deleted file mode 100644";
            !StartsHunk(line) && !StartsSection(line)
                && ReadHeaderLine(Publication, line, section) == Ok(section.(deletedFile := true))
  {
    hide NormalizePatchPath, SidePath;
    var line := "deleted file mode 100644";
    assert line[0] == 'd' && line[1] == 'e' && "diff --git "[1] == 'i';
  }

  lemma SideLines(f: FilePatch, tail: seq<string>, section: Section)
    requires WellFormedFile(f)
    ensures ReadHeader(Publication, SidesText(f) + tail, section)
         == ReadHeader(Publication, tail, if f.hunks == [] then section
             else section.(oldPath := f.oldPath, newPath := f.newPath))
  {
    hide ReadHeader, ReadHeaderLine, CleanPath, OpenSection, WellFormedHunk;
    if f.hunks == [] {
      assert SidesText(f) + tail == tail;
    } else {
      var minus, plus := "--- " + SideText(f.oldPath, "a/"), "+++ " + SideText(f.newPath, "b/");
      ReadSideLines(f, section);
      ReadSideLines(f, section.(oldPath := f.oldPath));
      assert minus[0] == '-' && plus[0] == '+';
      HeaderStep(minus, [plus] + tail, section, section.(oldPath := f.oldPath));
      HeaderStep(plus, tail, section.(oldPath := f.oldPath), section.(oldPath := f.oldPath, newPath := f.newPath));
      assert SidesText(f) + tail == [minus] + ([plus] + tail);
    }
  }

  /** The header of a rendered file is read back to its paths and change type. */
  lemma HeaderRoundTrip(f: FilePatch, tail: seq<string>)
    requires WellFormedFile(f) && Boundary(tail)
    ensures var start := OpenSection(Publication, SectionText(f)).value;
            var r := ReadHeader(Publication, ModeText(f) + SidesText(f) + (HunkText(f.hunks) + tail), start);
            r.Ok? &&
            var section := r.value.0.Resolved();
            && section.oldPath == f.oldPath && section.newPath == f.newPath && section.Change() == f.change
            && section.EffectivePath() != "" && (section.renameFrom != "" <==> f.change == Rename)
            && r.value.1 == (if f.hunks == [] then After(tail) else HunkText(f.hunks) + tail)
  {
    hide ReadHeaderLine, WellFormedHunk, CleanPath, HunkHeaderText;
    var start := OpenSection(Publication, SectionText(f)).value;
    var body := HunkText(f.hunks) + tail;
    OpenedSection(SectionText(f));
    assert ModeText(f) + SidesText(f) + body == ModeText(f) + (SidesText(f) + body);
    ModeLines(f, SidesText(f) + body, start);
    SideLines(f, body, Marked(f, start));
    CleanNonEmpty(f.oldPath);
    CleanNonEmpty(f.newPath);
    if f.hunks == [] {
      assert body == tail;
      if tail == [""] { BlankHeaderLine(Marked(f, start)); }
    } else {
      HeaderTextStarts(f.hunks[0]);
      assert body[0] == HunkHeaderText(f.hunks[0]);
    }
  }

  lemma OpenedSection(line: string)
    requires OpenSection(Publication, line).Ok?
    ensures var s := OpenSection(Publication, line).value;
            && s.oldPath.Some? && s.newPath.Some? && !s.newFile && !s.deletedFile
            && s.renameFrom == "" && s.renameTo == ""
  {
    hide DiffHeader, NormalizePatchPath;
  }

  lemma CleanNonEmpty(path: Option<string>)
    requires CleanOption(path)
    ensures path.Some? ==> path.value != ""
  {
  }

  lemma BlankHeaderLine(section: Section)
    ensures ReadHeader(Publication, [""], section) == Ok((section, []))
  {
    assert [""][1..] == [];
  }

  // Files.

  lemma SectionTextStarts(f: FilePatch)
    ensures StartsSection(SectionText(f)) && SectionText(f) != ""
  {
  }

  lemma FileStep(f: FilePatch, tail: seq<string>, acc: seq<FilePatch>)
    requires WellFormedFile(f) && Boundary(tail)
    ensures P.ReadFiles(FileText(f) + tail, acc) == P.ReadFiles(After(tail), acc + [f])
  {
    hide OpenSection, ReadHeader, P.ReadHunks, SectionText, ModeText, SidesText, HunkText, WellFormedHunk, CleanPath;
    var rest := FileText(f) + tail;
    assert rest[0] == SectionText(f);
    assert rest[1..] == ModeText(f) + SidesText(f) + (HunkText(f.hunks) + tail);
    SectionTextStarts(f);
    HeaderRoundTrip(f, tail);
    var header := ReadHeader(Publication, rest[1..], OpenSection(Publication, rest[0]).value).value;
    if f.hunks == [] {
      HunksEnd(tail, []);
    } else {
      HunksRoundTrip(f.hunks, tail, []);
      assert [] + f.hunks == f.hunks;
    }
    assert P.ReadHunks(header.1, []) == Ok((f.hunks, After(tail)));
  }

  lemma FilesEnd(acc: seq<FilePatch>)
    ensures P.ReadFiles([""], acc) == P.ReadFiles([], acc) == Ok(acc)
  {
    assert [""][1..] == [];
  }

  lemma {:induction false} FilesRoundTrip(files: seq<FilePatch>, acc: seq<FilePatch>)
    requires forall f <- files :: WellFormedFile(f)
    ensures P.ReadFiles(PatchText(files) + [""], acc) == Ok(acc + files)
  {
    hide P.ReadFiles, WellFormedFile, FileText;
    if files == [] {
      assert PatchText(files) + [""] == [""] && acc + files == acc;
      FilesEnd(acc);
    } else {
      var f := files[0];
      var tail := PatchText(files[1..]) + [""];
      assert PatchText(files) + [""] == FileText(f) + tail;
      if files[1..] != [] { FileTextStarts(files[1]); }
      FileStep(f, tail, acc);
      FilesRoundTrip(files[1..], acc + [f]);
      assert (acc + [f]) + files[1..] == acc + files;
      if files[1..] == [] {
        assert tail == [""];
        FilesEnd(acc + [f]);
      }
    }
  }

  lemma FileTextStarts(f: FilePatch)
    ensures FileText(f) != [] && StartsSection(FileText(f)[0])
  {
  }

  // The text.

  lemma {:induction false} HunkTextUnbroken(hunks: seq<Hunk>)
    requires forall h <- hunks :: WellFormedHunk(h)
    ensures forall line <- HunkText(hunks) :: '\n' !in line
  {
    if hunks != [] {
      HunkTextUnbroken(hunks[1..]);
      assert WellFormedHunk(hunks[0]);
      RangeUnbroken(hunks[0].oldStart, hunks[0].oldLines);
      RangeUnbroken(hunks[0].newStart, hunks[0].newLines);
    }
  }

  lemma RangeUnbroken(start: nat, count: nat)
    ensures '\n' !in RangeText(start, count)
  {
    assert !IsDigit('\n');
    assert '\n' !in Digits(start) && '\n' !in Digits(count);
  }

  lemma FileTextUnbroken(f: FilePatch)
    requires WellFormedFile(f)
    ensures forall line <- FileText(f) :: '\n' !in line
  {
    hide OpenSection, WellFormedHunk, HunkText, ModeText, SidesText, SectionText, CleanPath;
    HunkTextUnbroken(f.hunks);
    CleanUnbroken(f.oldPath);
    CleanUnbroken(f.newPath);
    assert '\n' !in SectionText(f) by { SectionUnbroken(f); }
    ModeUnbroken(f);
    SidesUnbroken(f);
  }

  predicate UnbrokenOption(path: Option<string>) { path.Some? ==> '\n' !in path.value }

  lemma SectionUnbroken(f: FilePatch)
    requires UnbrokenOption(f.oldPath) && UnbrokenOption(f.newPath)
    ensures '\n' !in SectionText(f)
  {
    assert '\n' !in "diff --git a/" && '\n' !in " b/";
  }

  lemma ModeUnbroken(f: FilePatch)
    requires UnbrokenOption(f.oldPath) && UnbrokenOption(f.newPath)
    ensures forall line <- ModeText(f) :: '\n' !in line
  {
    assert '\n' !in "rename from " && '\n' !in "rename to ";
    assert '\n' !in "new file mode 100644" && '\n' !in "deleted file mode 100644";
  }

  lemma SidesUnbroken(f: FilePatch)
    requires UnbrokenOption(f.oldPath) && UnbrokenOption(f.newPath)
    ensures forall line <- SidesText(f) :: '\n' !in line
  {
    assert '\n' !in "--- " && '\n' !in "+++ " && '\n' !in "/dev/null" && '\n' !in "a/" && '\n' !in "b/";
  }

  lemma CleanUnbroken(path: Option<string>)
    requires CleanOption(path)
    ensures path.Some? ==> '\n' !in path.value
  {
    assert IsLineTerminator('\n');
  }

  lemma {:induction false} PatchTextUnbroken(files: seq<FilePatch>)
    requires forall f <- files :: WellFormedFile(f)
    ensures forall line <- PatchText(files) :: '\n' !in line
  {
    hide WellFormedFile, FileText;
    if files != [] {
      FileTextUnbroken(files[0]);
      PatchTextUnbroken(files[1..]);
    }
  }

  /** The rendered text passes the raw-text checks and splits back into its lines. */
  lemma PrintedScreens(files: seq<FilePatch>)
    requires files != [] && forall f <- files :: WellFormedFile(f)
    requires Printable(Print(files))
    ensures Screen(Print(files)) == Ok(PatchText(files) + [""])
  {
    hide Includes, UnixNewlines, WellFormedFile, FileText;
    var lines := PatchText(files) + [""];
    PatchTextUnbroken(files);
    SplitJoin(lines, '\n');
    UnixNewlinesStable(Print(files));
    assert Print(files)[0] == 'd' by { FirstCharacter(files); }
    assert !IsSpace('d');
  }

  lemma FirstCharacter(files: seq<FilePatch>)
    requires files != []
    ensures Print(files) != "" && Print(files)[0] == 'd'
  {
    var first := SectionText(files[0]);
    assert first[0] == 'd';
    var lines := PatchText(files) + [""];
    assert lines[0] == first && |lines| > 1;
  }

  /**
   * Parsing the git-style rendering of any non-empty list of well-formed file patches returns
   * exactly that list.
   */
  lemma ParsePrint(files: seq<FilePatch>)
    requires files != [] && forall f <- files :: WellFormedFile(f)
    requires Printable(Print(files))
    ensures P.Parse(Print(files)) == Ok(files)
  {
    hide Screen, P.ReadFiles, WellFormedFile, Printable;
    PrintedScreens(files);
    FilesRoundTrip(files, []);
    assert [] + files == files;
  }

  // When the section line is readable.

  lemma {:induction false} OnlySplit(a: string, b: string, i: nat)
    requires a != "" && b != "" && |a| <= i
    requires forall k | |a| < k :: !SplitsAt(a + " b/" + b, k)
    ensures LastPathSplit(a + " b/" + b, i) == |a|
  {
    var s := a + " b/" + b;
    if i == |a| {
      assert SplitsAt(s, i);
    } else {
      OnlySplit(a, b, i - 1);
    }
  }

  lemma NoLaterSplit(a: string, b: string, k: nat)
    requires |a| < k && !Includes(b, " b/")
    ensures !SplitsAt(a + " b/" + b, k)
  {
    hide Includes;
    var rest := a + " b/" + b;
    if SplitsAt(rest, k) {
      assert rest[|a|] == ' ' && rest[|a| + 1] == 'b' && rest[|a| + 2] == '/';
      var at := k - |a| - 3;
      assert b[at] == rest[k] && b[at + 1] == rest[k + 1] && b[at + 2] == rest[k + 2];
      assert b[at..at + 3] == " b/";
      IncludesAt(b, " b/", at);
    }
  }

  /** A section line whose new path has no ` b/` inside it reads back as exactly its two clean paths. */
  lemma PlainSection(f: FilePatch)
    requires CleanOption(f.oldPath) && CleanOption(f.newPath) && (f.oldPath.Some? || f.newPath.Some?)
    requires !Includes(ShownPath(f.newPath, f.oldPath), " b/")
    ensures var a, b := ShownPath(f.oldPath, f.newPath), ShownPath(f.newPath, f.oldPath);
            && DiffHeader(SectionText(f)) == Some((a, b))
            && OpenSection(Publication, SectionText(f)) == Ok(Section(Some(a), Some(b), false, false, "", ""))
  {
    hide NormalizePatchPath, Includes, SplitsAt, Split, LastPathSplit, IsLineTerminator;
    var a, b := ShownPath(f.oldPath, f.newPath), ShownPath(f.newPath, f.oldPath);
    var line := SectionText(f);
    var rest := a + " b/" + b;
    assert line[13..] == rest;
    SeparatorIsPlain();
    assert OneLine(rest);
    forall k | |a| < k ensures !SplitsAt(rest, k) { NoLaterSplit(a, b, k); }
    OnlySplit(a, b, |rest|);
    assert rest[..|a|] == a && rest[|a| + 3..] == b;
    CleanPathIsFixed(Publication, a);
    CleanPathIsFixed(Publication, b);
  }

  lemma SeparatorIsPlain()
    ensures OneLine(" b/")
  {
  }

  lemma {:induction false} IncludesAt(s: string, needle: string, k: nat)
    requires k + |needle| <= |s| && s[k..k + |needle|] == needle
    ensures Includes(s, needle)
  {
    if k > 0 {
      assert s[1..][k - 1..k - 1 + |needle|] == needle;
      IncludesAt(s[1..], needle, k - 1);
    } else {
      assert needle <= s;
    }
  }
}
