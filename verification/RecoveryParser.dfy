/** `parseUnifiedDiff`: the parser that admits a proposed patch, with counts and provenance. */
module RecoveryParser {
  import opened Wrappers
  import opened Text
  import opened Paths
  import opened PatchFormat

  /** The approved plan step and the evidence behind the changes to one file. */
  datatype Provenance = Provenance(treatmentPlanStep: int, citations: seq<string>)

  datatype PatchHunk = PatchHunk(sequence: nat, oldStart: nat, oldLines: nat, newStart: nat, newLines: nat,
                                 header: string, content: string, addedLines: nat, deletedLines: nat,
                                 provenance: Provenance)

  datatype PatchFile = PatchFile(oldPath: Option<string>, newPath: Option<string>, change: ChangeType,
                                 addedLines: nat, deletedLines: nat, hunks: seq<PatchHunk>)
  {
    /** `newPath ?? oldPath ?? ''`. */
    function Path(): string {
      if newPath.Some? then newPath.value else if oldPath.Some? then oldPath.value else ""
    }
  }

  datatype ParsedPatch = ParsedPatch(files: seq<PatchFile>, changedFiles: nat, addedLines: nat, deletedLines: nat)

  type ProvenanceByFile = map<string, Provenance>

  datatype Body = Body(content: seq<string>, oldSeen: nat, newSeen: nat, added: nat, deleted: nat)

  /** The content lines of a hunk; a bare blank line inside it is kept but not counted. */
  function ReadBody(rest: seq<string>, body: Body): (r: Result<(Body, seq<string>), PatchError>)
    ensures r.Ok? ==> |r.value.1| <= |rest|
  {
    if rest == [] || StartsHunk(rest[0]) || StartsSection(rest[0]) then Ok((body, rest))
    else
      var line := rest[0];
      var grown := body.(content := body.content + [line]);
      if IsAddition(line) then ReadBody(rest[1..], grown.(newSeen := body.newSeen + 1, added := body.added + 1))
      else if IsRemoval(line) then ReadBody(rest[1..], grown.(oldSeen := body.oldSeen + 1, deleted := body.deleted + 1))
      else if IsContext(line) then ReadBody(rest[1..], grown.(oldSeen := body.oldSeen + 1, newSeen := body.newSeen + 1))
      else if line == NO_NEWLINE || line == "" then
        if line == "" && |rest| == 1 then Ok((body, [])) else ReadBody(rest[1..], grown)
      else Err(BadHunkLine)
  }

  function ReadHunk(rest:
      seq<string>, sequence: nat, provenance: Provenance): (r: Result<(PatchHunk, seq<string>), PatchError>)
    requires rest != []
    ensures r.Ok? ==> |r.value.1| < |rest|
  {
    match HunkHeader(rest[0])
    case None => Err(BadHunkHeader)
    case Some(h) =>
      match ReadBody(rest[1..], Body([rest[0]], 0, 0, 0, 0))
      case Err(e) => Err(e)
      case Ok((body, tail)) =>
        if body.oldSeen != h.oldLines || body.newSeen != h.newLines then Err(CountMismatch)
        else Ok((PatchHunk(sequence, h.oldStart, h.oldLines, h.newStart, h.newLines, rest[0],
                           Join(body.content, "\n"), body.added, body.deleted, provenance), tail))
  }

  /** What the hunk loop of one file accumulates. */
  datatype Tally = Tally(hunks: seq<PatchHunk>, added: nat, deleted: nat) {
    function With(h: PatchHunk): Tally { Tally(hunks + [h], added + h.addedLines, deleted + h.deletedLines) }
  }

  function ReadHunks(rest:
      seq<string>, provenance: Provenance, tally: Tally): (r: Result<(Tally, seq<string>), PatchError>)
    ensures r.Ok? ==> |r.value.1| <= |rest|
    decreases |rest|
  {
    if rest == [] || StartsSection(rest[0]) then Ok((tally, rest))
    else if rest[0] == "" then ReadHunks(rest[1..], provenance, tally)
    else
      match ReadHunk(rest, |tally.hunks| + 1, provenance)
      case Err(e) => Err(e)
      case Ok((hunk, tail)) => ReadHunks(tail, provenance, tally.With(hunk))
  }

  predicate HasProvenance(provenance: ProvenanceByFile, path: string) {
    path in provenance && provenance[path].citations != []
  }

  function ReadFiles(rest:
      seq<string>, provenance: ProvenanceByFile, patch: ParsedPatch): Result<ParsedPatch, PatchError>
    decreases |rest|
  {
    if rest == [] then Ok(patch)
    else if rest[0] == "" then ReadFiles(rest[1..], provenance, patch)
    else
      match OpenSection(Recovery, rest[0])
      case Err(e) => Err(e)
      case Ok(start) =>
        match ReadHeader(Recovery, rest[1..], start)
        case Err(e) => Err(e)
        case Ok((header, afterHeader)) =>
          var section := header.Resolved();
          var path := section.EffectivePath();
          if path == "" then Err(NoUsablePath)
          else if !HasProvenance(provenance, path) then Err(MissingProvenance)
          else
            match ReadHunks(afterHeader, provenance[path], Tally([], 0, 0))
            case Err(e) => Err(e)
            case Ok((tally, tail)) =>
              if tally.hunks == [] && section.renameFrom == "" then Err(NoHunks)
              else ReadFiles(tail, provenance, Extend(patch, section, tally))
  }

  function Extend(patch: ParsedPatch, section: Section, tally: Tally): ParsedPatch {
    var file := PatchFile(section.oldPath, section.newPath, section.Change(), tally.added, tally.deleted, tally.hunks);
    ParsedPatch(patch.files + [file], patch.changedFiles + 1, patch.addedLines + tally.added,
        patch.deletedLines + tally.deleted)
  }

  const NOTHING := ParsedPatch([], 0, 0, 0)

  /** The whole parser as a function of the text. */
  function Parse(text: string, provenance: ProvenanceByFile): Result<ParsedPatch, PatchError> {
    match Screen(text)
    case Err(e) => Err(e)
    case Ok(lines) =>
      match ReadFiles(lines, provenance, NOTHING)
      case Err(e) => Err(e)
      case Ok(patch) => if patch.files == [] then Err(NoFiles) else Ok(patch)
  }

  // The parser as the index-driven loops of the source, one method a loop.

  method ScanBody(lines: seq<string>, start: nat, header: string) returns (r: Result<(Body, nat), PatchError>)
    requires start <= |lines|
    ensures match ReadBody(lines[start..], Body([header], 0, 0, 0, 0))
            case Err(e) => r == Err(e)
            case Ok((body, tail)) =>
              r.Ok? && r.value.0 == body && start <= r.value.1 <= |lines|
              && lines[r.value.1..] == tail
  {
    var index := start;
    var contentLines := [header];
    var observedOld, observedNew, added, deleted := 0, 0, 0, 0;
    while index < |lines| && !StartsHunk(lines[index]) && !StartsSection(lines[index])
      invariant start <= index <= |lines|
      invariant ReadBody(lines[start..], Body([header], 0, 0, 0, 0))
             == ReadBody(lines[index..], Body(contentLines, observedOld, observedNew, added, deleted))
    {
      var line := lines[index];
      if IsAddition(line) {
        observedNew, added := observedNew + 1, added + 1;
      } else if IsRemoval(line) {
        observedOld, deleted := observedOld + 1, deleted + 1;
      } else if IsContext(line) {
        observedOld, observedNew := observedOld + 1, observedNew + 1;
      } else if line == NO_NEWLINE || line == "" {
        if line == "" && index == |lines| - 1 {
          index := index + 1;
          break;
        }
      } else {
        return Err(BadHunkLine);
      }
      contentLines := contentLines + [line];
      index := index + 1;
    }
    return Ok((Body(contentLines, observedOld, observedNew, added, deleted), index));
  }

  method ScanHunk(lines: seq<string>, start: nat, sequence: nat,
      provenance: Provenance) returns (r: Result<(PatchHunk, nat), PatchError>)
    requires start < |lines|
    ensures match ReadHunk(lines[start..], sequence, provenance)
            case Err(e) => r == Err(e)
            case Ok((hunk, tail)) =>
              r.Ok? && r.value.0 == hunk && start < r.value.1 <= |lines|
              && lines[r.value.1..] == tail
  {
    hide HunkHeader, ReadBody;
    var header := lines[start];
    var ranges := HunkHeader(header);
    if ranges.None? { return Err(BadHunkHeader); }
    var h := ranges.value;
    var scanned := ScanBody(lines, start + 1, header);
    if scanned.Err? { return Err(scanned.error); }
    var (body, next) := scanned.value;
    if body.oldSeen != h.oldLines || body.newSeen != h.newLines { return Err(CountMismatch); }
    return Ok((PatchHunk(sequence, h.oldStart, h.oldLines, h.newStart, h.newLines, header,
                         Join(body.content, "\n"), body.added, body.deleted, provenance), next));
  }

  method ScanHunks(lines: seq<string>, start: nat, provenance: Provenance) returns (r: Result<(Tally, nat), PatchError>)
    requires start <= |lines|
    ensures match ReadHunks(lines[start..], provenance, Tally([], 0, 0))
            case Err(e) => r == Err(e)
            case Ok((tally, tail)) =>
              r.Ok? && r.value.0 == tally && start <= r.value.1 <= |lines|
              && lines[r.value.1..] == tail
  {
    hide ReadHunk;
    var index := start;
    var hunks: seq<PatchHunk> := [];
    var fileAdded: nat, fileDeleted: nat := 0, 0;
    while index < |lines| && !StartsSection(lines[index])
      invariant start <= index <= |lines|
      invariant ReadHunks(lines[start..], provenance, Tally([], 0, 0))
             == ReadHunks(lines[index..], provenance, Tally(hunks, fileAdded, fileDeleted))
    {
      if lines[index] == "" {
        index := index + 1;
        continue;
      }
      var scanned := ScanHunk(lines, index, |hunks| + 1, provenance);
      if scanned.Err? { return Err(scanned.error); }
      var (hunk, next) := scanned.value;
      fileAdded, fileDeleted := fileAdded + hunk.addedLines, fileDeleted + hunk.deletedLines;
      hunks := hunks + [hunk];
      index := next;
    }
    return Ok((Tally(hunks, fileAdded, fileDeleted), index));
  }

  method ScanHeader(lines: seq<string>, start: nat, first: Section) returns (r: Result<(Section, nat), PatchError>)
    requires start <= |lines|
    ensures match ReadHeader(Recovery, lines[start..], first)
            case Err(e) => r == Err(e)
            case Ok((section, tail)) =>
              r.Ok? && r.value.0 == section && start <= r.value.1 <= |lines|
              && lines[r.value.1..] == tail
  {
    hide ReadHeaderLine;
    var index := start;
    var section := first;
    while index < |lines| && !StartsHunk(lines[index]) && !StartsSection(lines[index])
      invariant start <= index <= |lines|
      invariant ReadHeader(Recovery, lines[start..], first) == ReadHeader(Recovery, lines[index..], section)
    {
      var read := ReadHeaderLine(Recovery, lines[index], section);
      if read.Err? { return Err(read.error); }
      section := read.value;
      index := index + 1;
    }
    return Ok((section, index));
  }

  /** The whole parser; it terminates on every text and computes `Parse`. */
  method ParseUnifiedDiff(text: string, provenance: ProvenanceByFile) returns (r: Result<ParsedPatch, PatchError>)
    ensures r == Parse(text, provenance)
  {
    hide Screen, OpenSection, ReadHeader, ReadHunks;
    var screened := Screen(text);
    if screened.Err? { return Err(screened.error); }
    var lines := screened.value;
    var patch := NOTHING;
    var index := 0;
    while index < |lines|
      invariant index <= |lines|
      invariant ReadFiles(lines, provenance, NOTHING) == ReadFiles(lines[index..], provenance, patch)
    {
      if lines[index] == "" {
        index := index + 1;
        continue;
      }
      var first := OpenSection(Recovery, lines[index]);
      if first.Err? { return Err(first.error); }
      var header := ScanHeader(lines, index + 1, first.value);
      if header.Err? { return Err(header.error); }
      var section := header.value.0.Resolved();
      var path := section.EffectivePath();
      if path == "" { return Err(NoUsablePath); }
      if !HasProvenance(provenance, path) { return Err(MissingProvenance); }
      var scanned := ScanHunks(lines, header.value.1, provenance[path]);
      if scanned.Err? { return Err(scanned.error); }
      var (tally, next) := scanned.value;
      if tally.hunks == [] && section.renameFrom == "" { return Err(NoHunks); }
      patch := Extend(patch, section, tally);
      index := next;
    }
    return if patch.files == [] then Err(NoFiles) else Ok(patch);
  }

  // The totals.

  function SumAdded(files: seq<PatchFile>): nat {
    if files == [] then 0 else files[0].addedLines + SumAdded(files[1..])
  }
  function SumDeleted(files: seq<PatchFile>): nat {
    if files == [] then 0 else files[0].deletedLines + SumDeleted(files[1..])
  }
  function HunksAdded(hunks: seq<PatchHunk>): nat {
    if hunks == [] then 0 else hunks[0].addedLines + HunksAdded(hunks[1..])
  }
  function HunksDeleted(hunks: seq<PatchHunk>): nat {
    if hunks == [] then 0 else hunks[0].deletedLines + HunksDeleted(hunks[1..])
  }
  /** Sum over the hunks of declared new lines minus declared old lines. */
  function HunksGrowth(hunks: seq<PatchHunk>): int {
    if hunks == [] then 0 else hunks[0].newLines - hunks[0].oldLines + HunksGrowth(hunks[1..])
  }
  function Growth(files: seq<PatchFile>): int {
    if files == [] then 0 else HunksGrowth(files[0].hunks) + Growth(files[1..])
  }

  lemma {:induction false} HunkSumsAppend(hunks: seq<PatchHunk>, h: PatchHunk)
    ensures HunksAdded(hunks + [h]) == HunksAdded(hunks) + h.addedLines
    ensures HunksDeleted(hunks + [h]) == HunksDeleted(hunks) + h.deletedLines
    ensures HunksGrowth(hunks + [h]) == HunksGrowth(hunks) + h.newLines - h.oldLines
  {
    if hunks == [] {
      assert [h][1..] == [];
    } else {
      assert (hunks + [h])[1..] == hunks[1..] + [h];
      HunkSumsAppend(hunks[1..], h);
    }
  }

  lemma {:induction false} FileSumsAppend(files: seq<PatchFile>, f: PatchFile)
    ensures SumAdded(files + [f]) == SumAdded(files) + f.addedLines
    ensures SumDeleted(files + [f]) == SumDeleted(files) + f.deletedLines
    ensures Growth(files + [f]) == Growth(files) + HunksGrowth(f.hunks)
  {
    if files == [] {
      assert [f][1..] == [];
    } else {
      assert (files + [f])[1..] == files[1..] + [f];
      FileSumsAppend(files[1..], f);
    }
  }

  lemma {:induction false} BodyBalance(rest: seq<string>, body: Body)
    requires body.added - body.deleted == body.newSeen - body.oldSeen
    ensures var r := ReadBody(rest, body);
            r.Ok? ==> r.value.0.added - r.value.0.deleted == r.value.0.newSeen - r.value.0.oldSeen
  {
    if rest == [] || StartsHunk(rest[0]) || StartsSection(rest[0]) {
    } else {
      var line := rest[0];
      var grown := body.(content := body.content + [line]);
      if IsAddition(line) { BodyBalance(rest[1..], grown.(newSeen := body.newSeen + 1, added := body.added + 1)); }
      else if IsRemoval(line) {
        BodyBalance(rest[1..], grown.(oldSeen := body.oldSeen + 1, deleted := body.deleted + 1));
      }
      else if IsContext(line) {
        BodyBalance(rest[1..], grown.(oldSeen := body.oldSeen + 1, newSeen := body.newSeen + 1));
      }
      else { BodyBalance(rest[1..], grown); }
    }
  }

  /** The tally of a file is exact: totals are the sums over its hunks, numbered from 1. */
  ghost predicate ExactTally(t: Tally) {
    && t.added == HunksAdded(t.hunks) && t.deleted == HunksDeleted(t.hunks)
    && t.added - t.deleted == HunksGrowth(t.hunks)
    && forall i | 0 <= i < |t.hunks| :: t.hunks[i].sequence == i + 1
  }

  lemma HunkBalance(rest: seq<string>, sequence: nat, provenance: Provenance)
    requires rest != []
    ensures var r := ReadHunk(rest, sequence, provenance);
            r.Ok? ==>
              var h := r.value.0;
              h.addedLines - h.deletedLines == h.newLines - h.oldLines && h.sequence == sequence
  {
    hide HunkHeader;
    BodyBalance(rest[1..], Body([rest[0]], 0, 0, 0, 0));
  }

  lemma {:induction false} HunksExact(rest: seq<string>, provenance: Provenance, tally: Tally)
    requires ExactTally(tally)
    ensures var r := ReadHunks(rest, provenance, tally); r.Ok? ==> ExactTally(r.value.0)
    decreases |rest|
  {
    hide ReadHunk;
    if rest == [] || StartsSection(rest[0]) {
    } else if rest[0] == "" {
      HunksExact(rest[1..], provenance, tally);
    } else {
      var r := ReadHunk(rest, |tally.hunks| + 1, provenance);
      if r.Ok? {
        HunkBalance(rest, |tally.hunks| + 1, provenance);
        HunkSumsAppend(tally.hunks, r.value.0);
        HunksExact(r.value.1, provenance, tally.With(r.value.0));
      }
    }
  }

  ghost predicate ExactTotals(p: ParsedPatch) {
    && p.changedFiles == |p.files|
    && p.addedLines == SumAdded(p.files) && p.deletedLines == SumDeleted(p.files)
    && p.addedLines - p.deletedLines == Growth(p.files)
    && forall f <- p.files :: ExactTally(Tally(f.hunks, f.addedLines, f.deletedLines))
  }

  lemma {:induction false} FilesExact(rest: seq<string>, provenance: ProvenanceByFile, patch: ParsedPatch)
    requires ExactTotals(patch)
    ensures var r := ReadFiles(rest, provenance, patch); r.Ok? ==> ExactTotals(r.value)
    decreases |rest|
  {
    hide OpenSection, ReadHeader, ReadHunks, ExactTotals, Extend, ExactTally;
    if rest == [] {
    } else if rest[0] == "" {
      FilesExact(rest[1..], provenance, patch);
    } else {
      var start := OpenSection(Recovery, rest[0]);
      if start.Ok? {
        var header := ReadHeader(Recovery, rest[1..], start.value);
        if header.Ok? {
          var section := header.value.0.Resolved();
          var path := section.EffectivePath();
          if path != "" && HasProvenance(provenance, path) {
            var h := ReadHunks(header.value.1, provenance[path], Tally([], 0, 0));
            if h.Ok? && (h.value.0.hunks != [] || section.renameFrom != "") {
              NothingTallied();
              HunksExact(header.value.1, provenance[path], Tally([], 0, 0));
              ExtendExact(patch, section, h.value.0);
              FilesExact(h.value.1, provenance, Extend(patch, section, h.value.0));
            }
          }
        }
      }
    }
  }

  lemma NothingTallied()
    ensures ExactTally(Tally([], 0, 0))
  {
  }

  lemma ExtendExact(patch: ParsedPatch, section: Section, tally: Tally)
    requires ExactTotals(patch) && ExactTally(tally)
    ensures ExactTotals(Extend(patch, section, tally))
  {
    FileSumsAppend(patch.files, Extend(patch, section, tally).files[|patch.files|]);
  }

  lemma NothingIsExact()
    ensures ExactTotals(NOTHING)
  {
  }

  /**
   * Every accepted patch has exact totals: file and patch counts are sums over the hunks, and
   * added minus deleted equals the growth that the hunk headers declare.
   */
  lemma TotalsAreExact(text: string, provenance: ProvenanceByFile)
    ensures Parse(text, provenance).Ok? ==> ExactTotals(Parse(text, provenance).value)
  {
    hide Screen, ReadFiles, ExactTotals;
    NothingIsExact();
    if Screen(text).Ok? { FilesExact(Screen(text).value, provenance, NOTHING); }
  }
}
