/** The two patch parsers accept the same diffs, up to bare blank lines and provenance. */
module ParserAgreement {
  import opened Wrappers
  import opened Text
  import opened Paths
  import opened PatchFormat
  import P = PublicationParser
  import R = RecoveryParser

  predicate CleanSide(value: string, prefix: string) {
    var v := if prefix <= value then value[|prefix|..] else value;
    v == "/dev/null" || CleanPath(v)
  }

  /** Every path that a parser could read from this line is already normalized. */
  predicate NormalizedLine(line: string) {
    && (match DiffHeader(line) case None => true case Some((a, b)) => CleanPath(a) && CleanPath(b))
    && ("rename from " <= line ==> CleanPath(line[12..]))
    && ("rename to " <= line ==> CleanPath(line[10..]))
    && ("--- " <= line ==> CleanSide(line[4..], "a/"))
    && ("+++ " <= line ==> CleanSide(line[4..], "b/"))
  }

  predicate HasBareBlank(h: R.PatchHunk) { "" in Split(h.content, '\n')[1..] }

  /** Same ranges, and the recovery content is the hunk header followed by the publication lines. */
  predicate SameHunk(p: Hunk, r: R.PatchHunk) {
    && p.oldStart == r.oldStart && p.oldLines == r.oldLines && p.newStart == r.newStart && p.newLines == r.newLines
    && r.content == Join([r.header] + p.lines, "\n")
  }

  predicate SameHunks(ps: seq<Hunk>, rs: seq<R.PatchHunk>) {
    |ps| == |rs| && forall i | 0 <= i < |ps| :: SameHunk(ps[i], rs[i])
  }

  predicate SameFile(p: FilePatch, r: R.PatchFile) {
    p.oldPath == r.oldPath && p.newPath == r.newPath && p.change == r.change && SameHunks(p.hunks, r.hunks)
  }

  predicate SameFiles(ps: seq<FilePatch>, rs: seq<R.PatchFile>) {
    |ps| == |rs| && forall i | 0 <= i < |ps| :: SameFile(ps[i], rs[i])
  }

  predicate NoBareBlank(files: seq<R.PatchFile>) { forall f <- files, h <- f.hunks :: !HasBareBlank(h) }

  predicate AllProvenance(files: seq<FilePatch>, provenance: R.ProvenanceByFile) {
    forall f <- files :: R.HasProvenance(provenance, f.Path())
  }

  predicate UnbrokenLines(lines: seq<string>) { forall line <- lines :: '\n' !in line }

  // Header lines.

  lemma NormalizedHeaderLine(line: string, section: Section)
    requires NormalizedLine(line)
    ensures ReadHeaderLine(Publication, line, section) == ReadHeaderLine(Recovery, line, section)
  {
    hide NormalizePatchPath, CleanPath, DiffHeader;
    if "rename from " <= line { BothFixed(line[12..]); }
    if "rename to " <= line { BothFixed(line[10..]); }
    if "--- " <= line && CleanPath(StripSide(line[4..], "a/")) { BothFixed(StripSide(line[4..], "a/")); }
    if "+++ " <= line && CleanPath(StripSide(line[4..], "b/")) { BothFixed(StripSide(line[4..], "b/")); }
  }

  function StripSide(value: string, prefix: string): string { if prefix <= value then value[|prefix|..] else value }

  lemma BothFixed(p: string)
    requires CleanPath(p)
    ensures NormalizePatchPath(Publication, p) == NormalizePatchPath(Recovery, p) == Some(p)
  {
    CleanPathIsFixed(Publication, p);
    CleanPathIsFixed(Recovery, p);
  }

  lemma NormalizedOpenSection(line: string)
    requires NormalizedLine(line)
    ensures OpenSection(Publication, line) == OpenSection(Recovery, line)
  {
    hide NormalizePatchPath, CleanPath, DiffHeader;
    match DiffHeader(line)
    case None =>
    case Some((a, b)) =>
      BothFixed(a);
      BothFixed(b);
  }

  lemma {:induction false} NormalizedHeader(rest: seq<string>, section: Section)
    requires forall line <- rest :: NormalizedLine(line)
    ensures ReadHeader(Publication, rest, section) == ReadHeader(Recovery, rest, section)
  {
    hide ReadHeaderLine, NormalizedLine;
    if rest != [] && !StartsHunk(rest[0]) && !StartsSection(rest[0]) {
      NormalizedHeaderLine(rest[0], section);
      var r := ReadHeaderLine(Publication, rest[0], section);
      if r.Ok? { NormalizedHeader(rest[1..], r.value); }
    }
  }

  // Hunk bodies.

  lemma {:induction false} BodyGrows(rest: seq<string>, body: R.Body)
    requires UnbrokenLines(rest) && UnbrokenLines(body.content)
    ensures var r := R.ReadBody(rest, body);
            r.Ok? ==> body.content <= r.value.0.content && UnbrokenLines(r.value.0.content)
  {
    if rest == [] || StartsHunk(rest[0]) || StartsSection(rest[0]) {
    } else {
      var line := rest[0];
      var grown := body.(content := body.content + [line]);
      if IsAddition(line) { BodyGrows(rest[1..], grown.(newSeen := body.newSeen + 1, added := body.added + 1)); }
      else if IsRemoval(line) {
        BodyGrows(rest[1..], grown.(oldSeen := body.oldSeen + 1, deleted := body.deleted + 1));
      }
      else if IsContext(line) {
        BodyGrows(rest[1..], grown.(oldSeen := body.oldSeen + 1, newSeen := body.newSeen + 1));
      }
      else { BodyGrows(rest[1..], grown); }
    }
  }

  ghost predicate SameBody(p: P.Body, r: R.Body) {
    && r.content != [] && r.content[1..] == p.lines && "" !in p.lines
    && p.oldSeen == r.oldSeen && p.newSeen == r.newSeen
  }

  /** The publication loop is the recovery loop that also rejects bare blank lines. */
  lemma {:induction false} BodiesAgree(rest: seq<string>, p: P.Body, r: R.Body)
    requires UnbrokenLines(rest) && UnbrokenLines(r.content) && SameBody(p, r)
    ensures match R.ReadBody(rest, r)
            case Err(_) => P.ReadBody(rest, p).Err?
            case Ok((r', tail)) =>
              var read := P.ReadBody(rest, p);
              r'.content != [] &&
              if "" in r'.content[1..] then read.Err?
              else read.Ok? && read.value.1 == tail && SameBody(read.value.0, r')
  {
    if rest == [] || StartsHunk(rest[0]) || StartsSection(rest[0]) {
    } else {
      var line := rest[0];
      var p' := p.(lines := p.lines + [line]);
      var r' := r.(content := r.content + [line]);
      if IsAddition(line) {
        BodiesAgree(rest[1..], p'.(newSeen := p.newSeen + 1), r'.(newSeen := r.newSeen + 1, added := r.added + 1));
      } else if IsRemoval(line) {
        BodiesAgree(rest[1..], p'.(oldSeen := p.oldSeen + 1), r'.(oldSeen := r.oldSeen + 1, deleted := r.deleted + 1));
      } else if IsContext(line) {
        BodiesAgree(rest[1..], p'.(oldSeen := p.oldSeen + 1, newSeen := p.newSeen + 1),
                    r'.(oldSeen := r.oldSeen + 1, newSeen := r.newSeen + 1));
      } else if line == NO_NEWLINE {
        BodiesAgree(rest[1..], p', r');
      } else if line == "" && |rest| > 1 {
        BodyGrows(rest[1..], r');
        var read := R.ReadBody(rest[1..], r');
        if read.Ok? {
          assert read.value.0.content[|r.content|] == "";
          assert read.value.0.content[1..][|r.content| - 1] == "";
        }
      }
    }
  }

  lemma HunkAgrees(rest: seq<string>, sequence: nat, provenance: R.Provenance)
    requires rest != [] && UnbrokenLines(rest)
    ensures match R.ReadHunk(rest, sequence, provenance)
            case Err(_) => P.ReadHunk(rest).Err?
            case Ok((r, tail)) =>
              var read := P.ReadHunk(rest);
              if HasBareBlank(r) then read.Err? else read.Ok? && read.value.1 == tail && SameHunk(read.value.0, r)
  {
    hide HunkHeader, Split, Join, R.ReadBody, P.ReadBody;
    var start := R.Body([rest[0]], 0, 0, 0, 0);
    BodiesAgree(rest[1..], P.Body([], 0, 0), start);
    BodyGrows(rest[1..], start);
    var body := R.ReadBody(rest[1..], start);
    if body.Ok? {
      var content := body.value.0.content;
      SplitJoin(content, '\n');
      assert content == [content[0]] + content[1..];
    }
  }

  lemma {:induction false} SuffixKeeps(rest: seq<string>, sequence: nat, provenance: R.Provenance)
    requires rest != []
    ensures var r := R.ReadHunk(rest, sequence, provenance); r.Ok? ==> IsSuffix(r.value.1, rest)
  {
    hide HunkHeader;
    BodySuffix(rest[1..], R.Body([rest[0]], 0, 0, 0, 0));
  }

  predicate IsSuffix(tail: seq<string>, rest: seq<string>) { |tail| <= |rest| && tail == rest[|rest| - |tail|..] }

  lemma {:induction false} BodySuffix(rest: seq<string>, body: R.Body)
    ensures var r := R.ReadBody(rest, body); r.Ok? ==> IsSuffix(r.value.1, rest)
  {
    if rest == [] || StartsHunk(rest[0]) || StartsSection(rest[0]) {
    } else {
      var line := rest[0];
      var grown := body.(content := body.content + [line]);
      if IsAddition(line) { BodySuffix(rest[1..], grown.(newSeen := body.newSeen + 1, added := body.added + 1)); }
      else if IsRemoval(line) {
        BodySuffix(rest[1..], grown.(oldSeen := body.oldSeen + 1, deleted := body.deleted + 1));
      }
      else if IsContext(line) {
        BodySuffix(rest[1..], grown.(oldSeen := body.oldSeen + 1, newSeen := body.newSeen + 1));
      }
      else { BodySuffix(rest[1..], grown); }
    }
  }

  lemma {:induction false} HeaderSuffix(side: Side, rest: seq<string>, section: Section)
    ensures var r := ReadHeader(side, rest, section); r.Ok? ==> IsSuffix(r.value.1, rest)
  {
    hide ReadHeaderLine;
    if rest != [] && !StartsHunk(rest[0]) && !StartsSection(rest[0]) {
      var r := ReadHeaderLine(side, rest[0], section);
      if r.Ok? { HeaderSuffix(side, rest[1..], r.value); }
    }
  }

  /** Facts about all lines hold of a suffix. */
  lemma SuffixLines(tail: seq<string>, rest: seq<string>)
    requires IsSuffix(tail, rest)
    ensures forall line <- tail :: line in rest
  {
  }

  // Hunk lists.

  lemma {:induction false} HunkListsAgree(rest: seq<string>, provenance: R.Provenance, hunks: seq<Hunk>, tally: R.Tally)
    requires UnbrokenLines(rest) && SameHunks(hunks, tally.hunks)
    requires forall h <- tally.hunks :: !HasBareBlank(h)
    ensures match R.ReadHunks(rest, provenance, tally)
            case Err(_) => P.ReadHunks(rest, hunks).Err?
            case Ok((t, tail)) =>
              var read := P.ReadHunks(rest, hunks);
              if exists h <- t.hunks :: HasBareBlank(h) then read.Err?
              else read.Ok? && read.value.1 == tail && SameHunks(read.value.0, t.hunks)
    ensures var r := R.ReadHunks(rest, provenance, tally);
            r.Ok? ==> tally.hunks <= r.value.0.hunks && IsSuffix(r.value.1, rest)
    decreases |rest|
  {
    hide R.ReadHunk, P.ReadHunk, HasBareBlank, SameHunk;
    if rest == [] || StartsSection(rest[0]) {
    } else if rest[0] == "" {
      HunkListsAgree(rest[1..], provenance, hunks, tally);
    } else {
      HunkAgrees(rest, |tally.hunks| + 1, provenance);
      var r := R.ReadHunk(rest, |tally.hunks| + 1, provenance);
      if r.Ok? {
        var (h, tail) := r.value;
        SuffixKeeps(rest, |tally.hunks| + 1, provenance);
        SuffixLines(tail, rest);
        var next := tally.With(h);
        if HasBareBlank(h) {
          HunkListGrows(tail, provenance, next);
          var all := R.ReadHunks(tail, provenance, next);
          if all.Ok? { assert all.value.0.hunks[|tally.hunks|] == h; }
        } else {
          HunkListsAgree(tail, provenance, hunks + [P.ReadHunk(rest).value.0], next);
        }
      }
    }
  }

  lemma {:induction false} HunkListGrows(rest: seq<string>, provenance: R.Provenance, tally: R.Tally)
    ensures var r := R.ReadHunks(rest, provenance, tally);
            r.Ok? ==> tally.hunks <= r.value.0.hunks && IsSuffix(r.value.1, rest)
    decreases |rest|
  {
    hide R.ReadHunk;
    if rest == [] || StartsSection(rest[0]) {
    } else if rest[0] == "" {
      HunkListGrows(rest[1..], provenance, tally);
    } else {
      var r := R.ReadHunk(rest, |tally.hunks| + 1, provenance);
      if r.Ok? {
        SuffixKeeps(rest, |tally.hunks| + 1, provenance);
        HunkListGrows(r.value.1, provenance, tally.With(r.value.0));
      }
    }
  }

  // File lists.

  ghost predicate FileListsAgreeOn(rest: seq<string>, provenance: R.ProvenanceByFile, files: seq<FilePatch>,
      patch: R.ParsedPatch) {
    var p := P.ReadFiles(rest, files);
    var r := R.ReadFiles(rest, provenance, patch);
    && ((p.Ok? && AllProvenance(p.value, provenance)) <==> (r.Ok? && NoBareBlank(r.value.files)))
    && (r.Ok? && NoBareBlank(r.value.files) ==> SameFiles(p.value, r.value.files))
    && (p.Ok? && r.Ok? ==> NoBareBlank(r.value.files))
  }

  lemma {:induction false} FilesGrow(rest: seq<string>, files: seq<FilePatch>)
    ensures var p := P.ReadFiles(rest, files); p.Ok? ==> files <= p.value
    decreases |rest|
  {
    hide OpenSection, ReadHeader, P.ReadHunks;
    if rest == [] {
    } else if rest[0] == "" {
      FilesGrow(rest[1..], files);
    } else {
      var start := OpenSection(Publication, rest[0]);
      if start.Ok? {
        var header := ReadHeader(Publication, rest[1..], start.value);
        if header.Ok? {
          var section := header.value.0.Resolved();
          var h := P.ReadHunks(header.value.1, []);
          if h.Ok? {
            FilesGrow(h.value.1, files + [FilePatch(section.oldPath, section.newPath, section.Change(), h.value.0)]);
          }
        }
      }
    }
  }

  lemma {:induction false} PatchGrows(rest: seq<string>, provenance: R.ProvenanceByFile, patch: R.ParsedPatch)
    ensures var r := R.ReadFiles(rest, provenance, patch); r.Ok? ==> patch.files <= r.value.files
    decreases |rest|
  {
    hide OpenSection, ReadHeader, R.ReadHunks;
    if rest == [] {
    } else if rest[0] == "" {
      PatchGrows(rest[1..], provenance, patch);
    } else {
      var start := OpenSection(Recovery, rest[0]);
      if start.Ok? {
        var header := ReadHeader(Recovery, rest[1..], start.value);
        if header.Ok? {
          var section := header.value.0.Resolved();
          var path := section.EffectivePath();
          if path != "" && R.HasProvenance(provenance, path) {
            var h := R.ReadHunks(header.value.1, provenance[path], R.Tally([], 0, 0));
            if h.Ok? { PatchGrows(h.value.1, provenance, R.Extend(patch, section, h.value.0)); }
          }
        }
      }
    }
  }

  /** The part of a file section after its header has been read by both parsers. */
  lemma {:induction false} SectionAgrees(afterHeader: seq<string>, provenance: R.ProvenanceByFile,
      files: seq<FilePatch>,
                                         patch: R.ParsedPatch, section: Section)
    requires UnbrokenLines(afterHeader) && SameFiles(files, patch.files)
    requires NoBareBlank(patch.files) && section.EffectivePath() != ""
    requires R.HasProvenance(provenance, section.EffectivePath())
    ensures var p := P.ReadHunks(afterHeader, []);
            match R.ReadHunks(afterHeader, provenance[section.EffectivePath()], R.Tally([], 0, 0))
            case Err(_) => p.Err?
            case Ok((tally, tail)) =>
              var patch' := R.Extend(patch, section, tally);
              IsSuffix(tail, afterHeader) &&
              if NoBareBlank(patch'.files) then
                p.Ok? && p.value.1 == tail && (p.value.0 == [] <==> tally.hunks == []) &&
                SameFiles(files + [FilePatch(section.oldPath, section.newPath, section.Change(), p.value.0)],
                    patch'.files)
              else p.Err?
  {
    hide P.ReadHunks, R.ReadHunks, HasBareBlank, SameHunk;
    HunkListsAgree(afterHeader, provenance[section.EffectivePath()], [], R.Tally([], 0, 0));
  }

  lemma {:induction false} FileListsAgree(rest: seq<string>, provenance: R.ProvenanceByFile, files: seq<FilePatch>,
      patch: R.ParsedPatch)
    requires UnbrokenLines(rest) && forall line <- rest :: NormalizedLine(line)
    requires SameFiles(files, patch.files) && NoBareBlank(patch.files) && AllProvenance(files, provenance)
    ensures FileListsAgreeOn(rest, provenance, files, patch)
    decreases |rest|
  {
    hide OpenSection, ReadHeader, R.ReadHunks, P.ReadHunks, HasBareBlank, SameFile, NormalizedLine;
    if rest == [] {
    } else if rest[0] == "" {
      FileListsAgree(rest[1..], provenance, files, patch);
    } else {
      NormalizedOpenSection(rest[0]);
      var start := OpenSection(Publication, rest[0]);
      if start.Ok? {
        NormalizedHeader(rest[1..], start.value);
        var header := ReadHeader(Publication, rest[1..], start.value);
        if header.Ok? {
          HeaderSuffix(Publication, rest[1..], start.value);
          var section := header.value.0.Resolved();
          var afterHeader := header.value.1;
          SuffixLines(afterHeader, rest[1..]);
          if section.EffectivePath() != "" {
            OneSection(rest, provenance, files, patch, section, afterHeader);
          }
        }
      }
    }
  }

  ghost predicate Opens(side: Side, rest: seq<string>, section: Section, afterHeader: seq<string>)
    requires rest != []
  {
    var start := OpenSection(side, rest[0]);
    start.Ok? &&
    var header := ReadHeader(side, rest[1..], start.value);
    header.Ok? && header.value.0.Resolved() == section && header.value.1 == afterHeader
  }

  lemma {:induction false} OneSection(rest: seq<string>, provenance: R.ProvenanceByFile, files: seq<FilePatch>,
      patch: R.ParsedPatch,
                                      section: Section, afterHeader: seq<string>)
    requires |afterHeader| < |rest| && UnbrokenLines(afterHeader) && forall line <- afterHeader :: NormalizedLine(line)
    requires SameFiles(files, patch.files) && NoBareBlank(patch.files) && AllProvenance(files, provenance)
    requires rest != [] && rest[0] != "" && section.EffectivePath() != ""
    requires Opens(Publication, rest, section, afterHeader) && Opens(Recovery, rest, section, afterHeader)
    ensures FileListsAgreeOn(rest, provenance, files, patch)
    decreases |rest|, 0
  {
    hide OpenSection, ReadHeader, R.ReadHunks, P.ReadHunks, HasBareBlank, SameFile, NormalizedLine;
    var p := P.ReadHunks(afterHeader, []);
    var path := section.EffectivePath();
    if R.HasProvenance(provenance, path) {
      SectionAgrees(afterHeader, provenance, files, patch, section);
      var r := R.ReadHunks(afterHeader, provenance[path], R.Tally([], 0, 0));
      if r.Ok? && (r.value.0.hunks != [] || section.renameFrom != "") {
        var (tally, tail) := r.value;
        var patch' := R.Extend(patch, section, tally);
        SuffixLines(tail, afterHeader);
        if NoBareBlank(patch'.files) {
          var files' := files + [FilePatch(section.oldPath, section.newPath, section.Change(), p.value.0)];
          FileListsAgree(tail, provenance, files', patch');
        } else {
          PatchGrows(tail, provenance, patch');
        }
      }
    } else if p.Ok? {
      var file := FilePatch(section.oldPath, section.newPath, section.Change(), p.value.0);
      FilesGrow(p.value.1, files + [file]);
      var read := P.ReadFiles(p.value.1, files + [file]);
      if read.Ok? {
        assert file == read.value[|files|];
        assert !R.HasProvenance(provenance, file.Path());
      }
    }
  }

  /**
   * On diffs whose paths are already normalized: the publication parser accepts with every file
   * covered by provenance exactly when the recovery parser accepts without a bare blank line in a
   * hunk, and then both report the same files, change types, hunk ranges and hunk bodies.
   */
  lemma ParsersAgree(text: string, provenance: R.ProvenanceByFile)
    requires Screen(text).Ok? ==> forall line <- Screen(text).value :: NormalizedLine(line)
    ensures var p := P.Parse(text);
            var r := R.Parse(text, provenance);
            && ((p.Ok? && AllProvenance(p.value, provenance)) <==> (r.Ok? && NoBareBlank(r.value.files)))
            && (r.Ok? && NoBareBlank(r.value.files) ==> SameFiles(p.value, r.value.files))
            && (p.Ok? && r.Ok? ==> NoBareBlank(r.value.files))
  {
    hide HasBareBlank, SameFile, NormalizedLine, P.ReadFiles, R.ReadFiles, UnixNewlines;
    if Screen(text).Ok? {
      FileListsAgree(Screen(text).value, provenance, [], R.NOTHING);
    }
  }

  /** Both parsers read a diff with Windows line ends as the diff with plain ones. */
  lemma CrLfParsesAlike(text: string, provenance: R.ProvenanceByFile)
    requires !Includes(text, "\r\n")
    ensures P.Parse(CrLf(text)) == P.Parse(text) && R.Parse(CrLf(text), provenance) == R.Parse(text, provenance)
  {
    hide Screen, P.ReadFiles, R.ReadFiles;
    ScreenCrLf(text);
  }
}
