/** `parseUnifiedDiffFiles`: the parser that feeds the materialized commit. */
module PublicationParser {
  import opened Wrappers
  import opened Paths
  import opened PatchFormat

  datatype Body = Body(lines: seq<string>, oldSeen: nat, newSeen: nat)

  /** The content lines of a hunk; a blank line is tolerated only as the last line of the text. */
  function ReadBody(rest: seq<string>, body: Body): (r: Result<(Body, seq<string>), PatchError>)
    ensures r.Ok? ==> |r.value.1| <= |rest|
  {
    if rest == [] || StartsHunk(rest[0]) || StartsSection(rest[0]) then Ok((body, rest))
    else
      var line := rest[0];
      var grown := body.(lines := body.lines + [line]);
      if line == "" && |rest| == 1 then Ok((body, []))
      else if IsAddition(line) then ReadBody(rest[1..], grown.(newSeen := body.newSeen + 1))
      else if IsRemoval(line) then ReadBody(rest[1..], grown.(oldSeen := body.oldSeen + 1))
      else if IsContext(line) then ReadBody(rest[1..], grown.(oldSeen := body.oldSeen + 1, newSeen := body.newSeen + 1))
      else if line == NO_NEWLINE then ReadBody(rest[1..], grown)
      else Err(BadHunkLine)
  }

  /** One hunk, from its header line to the next hunk or file section. */
  function ReadHunk(rest: seq<string>): (r: Result<(Hunk, seq<string>), PatchError>)
    requires rest != []
    ensures r.Ok? ==> |r.value.1| < |rest|
  {
    match HunkHeader(rest[0])
    case None => Err(BadHunkHeader)
    case Some(h) =>
      match ReadBody(rest[1..], Body([], 0, 0))
      case Err(e) => Err(e)
      case Ok((body, tail)) =>
        if body.oldSeen != h.oldLines || body.newSeen != h.newLines then Err(CountMismatch)
        else Ok((Hunk(h.oldStart, h.oldLines, h.newStart, h.newLines, body.lines), tail))
  }

  function ReadHunks(rest: seq<string>, hunks: seq<Hunk>): (r: Result<(seq<Hunk>, seq<string>), PatchError>)
    ensures r.Ok? ==> |r.value.1| <= |rest|
    decreases |rest|
  {
    if rest == [] || StartsSection(rest[0]) then Ok((hunks, rest))
    else if rest[0] == "" then ReadHunks(rest[1..], hunks)
    else
      match ReadHunk(rest)
      case Err(e) => Err(e)
      case Ok((hunk, tail)) => ReadHunks(tail, hunks + [hunk])
  }

  function ReadFiles(rest: seq<string>, files: seq<FilePatch>): Result<seq<FilePatch>, PatchError>
    decreases |rest|
  {
    if rest == [] then Ok(files)
    else if rest[0] == "" then ReadFiles(rest[1..], files)
    else
      match OpenSection(Publication, rest[0])
      case Err(e) => Err(e)
      case Ok(start) =>
        match ReadHeader(Publication, rest[1..], start)
        case Err(e) => Err(e)
        case Ok((header, afterHeader)) =>
          var section := header.Resolved();
          if section.EffectivePath() == "" then Err(NoUsablePath)
          else
            match ReadHunks(afterHeader, [])
            case Err(e) => Err(e)
            case Ok((hunks, tail)) =>
              if hunks == [] && section.renameFrom == "" then Err(NoHunks)
              else ReadFiles(tail, files + [FilePatch(section.oldPath, section.newPath, section.Change(), hunks)])
  }

  /** The whole parser as a function of the text. */
  function Parse(text: string): Result<seq<FilePatch>, PatchError> {
    match Screen(text)
    case Err(e) => Err(e)
    case Ok(lines) =>
      match ReadFiles(lines, [])
      case Err(e) => Err(e)
      case Ok(files) => if files == [] then Err(NoFiles) else Ok(files)
  }

  // The parser as the index-driven loops of the source, one method a loop.

  /** The innermost loop: content lines from `index`, with the observed counts. */
  method ScanBody(lines: seq<string>, start: nat) returns (r: Result<(Body, nat), PatchError>)
    requires start <= |lines|
    ensures match ReadBody(lines[start..], Body([], 0, 0))
            case Err(e) => r == Err(e)
            case Ok((body, tail)) =>
              r.Ok? && r.value.0 == body && start <= r.value.1 <= |lines|
              && lines[r.value.1..] == tail
  {
    var index := start;
    var hunkLines: seq<string> := [];
    var observedOld, observedNew := 0, 0;
    while index < |lines| && !StartsHunk(lines[index]) && !StartsSection(lines[index])
      invariant start <= index <= |lines|
      invariant ReadBody(lines[start..], Body([], 0, 0)) == ReadBody(lines[index..], Body(hunkLines, observedOld,
          observedNew))
    {
      var line := lines[index];
      if line == "" && index == |lines| - 1 {
        index := index + 1;
        break;
      }
      if IsAddition(line) {
        observedNew := observedNew + 1;
      } else if IsRemoval(line) {
        observedOld := observedOld + 1;
      } else if IsContext(line) {
        observedOld, observedNew := observedOld + 1, observedNew + 1;
      } else if line != NO_NEWLINE {
        return Err(BadHunkLine);
      }
      hunkLines := hunkLines + [line];
      index := index + 1;
    }
    return Ok((Body(hunkLines, observedOld, observedNew), index));
  }

  /** One hunk: header, content loop and the check of the declared counts. */
  method ScanHunk(lines: seq<string>, start: nat) returns (r: Result<(Hunk, nat), PatchError>)
    requires start < |lines|
    ensures match ReadHunk(lines[start..])
            case Err(e) => r == Err(e)
            case Ok((hunk, tail)) =>
              r.Ok? && r.value.0 == hunk && start < r.value.1 <= |lines|
              && lines[r.value.1..] == tail
  {
    hide HunkHeader, ReadBody;
    var ranges := HunkHeader(lines[start]);
    if ranges.None? { return Err(BadHunkHeader); }
    var h := ranges.value;
    var scanned := ScanBody(lines, start + 1);
    if scanned.Err? { return Err(scanned.error); }
    var (body, next) := scanned.value;
    if body.oldSeen != h.oldLines || body.newSeen != h.newLines { return Err(CountMismatch); }
    return Ok((Hunk(h.oldStart, h.oldLines, h.newStart, h.newLines, body.lines), next));
  }

  /** The loop over the hunks of one file. */
  method ScanHunks(lines: seq<string>, start: nat) returns (r: Result<(seq<Hunk>, nat), PatchError>)
    requires start <= |lines|
    ensures match ReadHunks(lines[start..], [])
            case Err(e) => r == Err(e)
            case Ok((hunks, tail)) =>
              r.Ok? && r.value.0 == hunks && start <= r.value.1 <= |lines|
              && lines[r.value.1..] == tail
  {
    hide ReadHunk;
    var index := start;
    var hunks: seq<Hunk> := [];
    while index < |lines| && !StartsSection(lines[index])
      invariant start <= index <= |lines|
      invariant ReadHunks(lines[start..], []) == ReadHunks(lines[index..], hunks)
    {
      if lines[index] == "" {
        index := index + 1;
        continue;
      }
      var scanned := ScanHunk(lines, index);
      if scanned.Err? { return Err(scanned.error); }
      hunks := hunks + [scanned.value.0];
      index := scanned.value.1;
    }
    return Ok((hunks, index));
  }

  /** The loop over the extended header lines of one file. */
  method ScanHeader(lines: seq<string>, start: nat, first: Section) returns (r: Result<(Section, nat), PatchError>)
    requires start <= |lines|
    ensures match ReadHeader(Publication, lines[start..], first)
            case Err(e) => r == Err(e)
            case Ok((section, tail)) =>
              r.Ok? && r.value.0 == section && start <= r.value.1 <= |lines|
              && lines[r.value.1..] == tail
  {
    hide ReadHeaderLine;
    var index := start;
    var section := first;
    while index < |lines| && !StartsHunk(lines[index]) && !StartsSection(lines[index])
      invariant start <= index <= |lines|
      invariant ReadHeader(Publication, lines[start..], first) == ReadHeader(Publication, lines[index..], section)
    {
      var read := ReadHeaderLine(Publication, lines[index], section);
      if read.Err? { return Err(read.error); }
      section := read.value;
      index := index + 1;
    }
    return Ok((section, index));
  }

  /** The whole parser; it terminates on every text and computes `Parse`. */
  method ParseUnifiedDiffFiles(text: string) returns (r: Result<seq<FilePatch>, PatchError>)
    ensures r == Parse(text)
  {
    hide Screen, OpenSection, ReadHeader, ReadHunks;
    var screened := Screen(text);
    if screened.Err? { return Err(screened.error); }
    var lines := screened.value;
    var files: seq<FilePatch> := [];
    var index := 0;
    while index < |lines|
      invariant index <= |lines|
      invariant ReadFiles(lines, []) == ReadFiles(lines[index..], files)
    {
      if lines[index] == "" {
        index := index + 1;
        continue;
      }
      var first := OpenSection(Publication, lines[index]);
      if first.Err? { return Err(first.error); }
      var header := ScanHeader(lines, index + 1, first.value);
      if header.Err? { return Err(header.error); }
      var section := header.value.0.Resolved();
      if section.EffectivePath() == "" { return Err(NoUsablePath); }
      var scanned := ScanHunks(lines, header.value.1);
      if scanned.Err? { return Err(scanned.error); }
      var (hunks, next) := scanned.value;
      if hunks == [] && section.renameFrom == "" { return Err(NoHunks); }
      files := files + [FilePatch(section.oldPath, section.newPath, section.Change(), hunks)];
      index := next;
    }
    return if files == [] then Err(NoFiles) else Ok(files);
  }

  // The lines left over are lines of the text.

  lemma {:induction false} BodyTail(rest: seq<string>, body: Body)
    ensures var r := ReadBody(rest, body); r.Ok? ==> forall line <- r.value.1 :: line in rest
  {
    if rest != [] && !StartsHunk(rest[0]) && !StartsSection(rest[0]) {
      var line := rest[0];
      var grown := body.(lines := body.lines + [line]);
      if line == "" && |rest| == 1 { }
      else if IsAddition(line) { BodyTail(rest[1..], grown.(newSeen := body.newSeen + 1)); }
      else if IsRemoval(line) { BodyTail(rest[1..], grown.(oldSeen := body.oldSeen + 1)); }
      else if IsContext(line) { BodyTail(rest[1..], grown.(oldSeen := body.oldSeen + 1, newSeen := body.newSeen + 1)); }
      else if line == NO_NEWLINE { BodyTail(rest[1..], grown); }
    }
  }

  lemma {:induction false} HunksTail(rest: seq<string>, hunks: seq<Hunk>)
    ensures var r := ReadHunks(rest, hunks); r.Ok? ==> forall line <- r.value.1 :: line in rest
    decreases |rest|
  {
    hide HunkHeader, ReadBody;
    if rest != [] && !StartsSection(rest[0]) {
      if rest[0] == "" {
        HunksTail(rest[1..], hunks);
      } else {
        BodyTail(rest[1..], Body([], 0, 0));
        var read := ReadHunk(rest);
        if read.Ok? { HunksTail(read.value.1, hunks + [read.value.0]); }
      }
    }
  }
}
