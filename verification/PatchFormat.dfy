/** The unified-diff pieces that both patch parsers read in the same way. */
module PatchFormat {
  import opened Wrappers
  import opened Text
  import opened Paths

  datatype PatchError =
    | EmptyPatch | BinaryPatch | OutsideSection | UnsafePath | NoUsablePath | MissingProvenance
    | BadHunkHeader | BadHunkLine | CountMismatch | NoHunks | NoFiles

  datatype ChangeType = Add | Modify | Delete | Rename

  /** A hunk as the publication side keeps it. */
  datatype Hunk = Hunk(oldStart: nat, oldLines: nat, newStart: nat, newLines: nat, lines: seq<string>)

  datatype FilePatch = FilePatch(oldPath: Option<string>, newPath: Option<string>, change: ChangeType,
      hunks: seq<Hunk>) {
    /** `newPath ?? oldPath ?? ''`. */
    function Path(): string {
      if newPath.Some? then newPath.value else if oldPath.Some? then oldPath.value else ""
    }
  }

  const NO_NEWLINE := "\\ No newline at end of file"

  predicate StartsSection(line: string) { "diff --git " <= line }
  predicate StartsHunk(line: string) { "@@ " <= line }
  predicate IsAddition(line: string) { "+" <= line && !("+++" <= line) }
  predicate IsRemoval(line: string) { "-" <= line && !("---" <= line) }
  predicate IsContext(line: string) { " " <= line }

  /** ` b/` occurs in `s` at `i`, with something after it. */
  predicate SplitsAt(s: string, i: nat) { i + 3 < |s| && s[i] == ' ' && s[i + 1] == 'b' && s[i + 2] == '/' }

  /** The greatest `j <= i` at which `s` splits as `.+ b/.+`, or 0. */
  function LastPathSplit(s: string, i: nat): (j: nat)
    ensures j > 0 ==> SplitsAt(s, j)
  {
    if i == 0 then 0
    else if SplitsAt(s, i) then i
    else LastPathSplit(s, i - 1)
  }

  /** The two groups of `/^diff --git a\/(.+) b\/(.+)$/`. */
  function DiffHeader(line: string): Option<(string, string)> {
    if !("diff --git a/" <= line) || !OneLine(line[13..]) then None
    else
      var rest := line[13..];
      var j := LastPathSplit(rest, |rest|);
      if j == 0 then None else Some((rest[..j], rest[j + 3..]))
  }

  /** `(\d+)(?:,(\d+))?`: start, count (1 when absent) and the text that follows. */
  function HunkRange(s: string): Option<(nat, nat, string)> {
    var k := DigitRun(s);
    if k == 0 then None
    else
      var rest := s[k..];
      if "," <= rest && DigitRun(rest[1..]) > 0 then
        var m := DigitRun(rest[1..]);
        Some((DigitsValue(s[..k]), DigitsValue(rest[1..][..m]), rest[1..][m..]))
      else Some((DigitsValue(s[..k]), 1, rest))
  }

  datatype Ranges = Ranges(oldStart: nat, oldLines: nat, newStart: nat, newLines: nat)

  /** The groups of `/^@@ -(\d+)(?:,(\d+))? \+(\d+)(?:,(\d+))? @@(?: .*)?$/`. */
  function HunkHeader(line: string): Option<Ranges> {
    if !("@@ -" <= line) then None
    else
      match HunkRange(line[4..])
      case None => None
      case Some((oldStart, oldLines, rest)) =>
        if !(" +" <= rest) then None
        else
          match HunkRange(rest[2..])
          case None => None
          case Some((newStart, newLines, tail)) =>
            if !(" @@" <= tail) then None
            else if tail[3..] == "" || (tail[3] == ' ' && OneLine(tail[4..])) then
              Some(Ranges(oldStart, oldLines, newStart, newLines))
            else None
  }

  /** What the extended header of a file section has said so far; an absent rename path is "". */
  datatype Section = Section(oldPath: Option<string>, newPath: Option<string>, newFile: bool, deletedFile: bool,
                             renameFrom: string, renameTo: string)
  {
    /** The section after its header: renames first, then the new-file and deleted-file marks. */
    function Resolved(): Section {
      var from := if renameFrom != "" then Some(renameFrom) else oldPath;
      var to := if renameTo != "" then Some(renameTo) else newPath;
      this.(oldPath := if newFile then None else from, newPath := if deletedFile then None else to)
    }

    /** `newPath ?? oldPath`, "" when both are absent. */
    function EffectivePath(): string {
      if newPath.Some? then newPath.value else if oldPath.Some? then oldPath.value else ""
    }

    function Change(): ChangeType {
      if oldPath.None? then Add else if newPath.None? then Delete else if renameFrom != "" then Rename else Modify
    }
  }

  /** The path named on a `---` or `+++` line, `None` for `/dev/null`. */
  function SidePath(side: Side, value: string, prefix: string): Result<Option<string>, PatchError> {
    var v := if prefix <= value then value[|prefix|..] else value;
    if v == "/dev/null" then Ok(None)
    else
      match NormalizePatchPath(side, v)
      case None => Err(UnsafePath)
      case Some(p) => Ok(Some(p))
  }

  /** One line of the extended header. */
  function ReadHeaderLine(side: Side, line: string, section: Section): Result<Section, PatchError> {
    if "new file mode " <= line then Ok(section.(newFile := true))
    else if "deleted file mode " <= line then Ok(section.(deletedFile := true))
    else if "rename from " <= line then
      match NormalizePatchPath(side, line[12..]) case None => Err(UnsafePath)
          case Some(p) => Ok(section.(renameFrom := p))
    else if "rename to " <= line then
      match NormalizePatchPath(side, line[10..]) case None => Err(UnsafePath)
          case Some(p) => Ok(section.(renameTo := p))
    else if "--- " <= line then
      match SidePath(side, line[4..], "a/") case Err(e) => Err(e) case Ok(p) => Ok(section.(oldPath := p))
    else if "+++ " <= line then
      match SidePath(side, line[4..], "b/") case Err(e) => Err(e) case Ok(p) => Ok(section.(newPath := p))
    else Ok(section)
  }

  /** The extended header: every line up to a hunk or the next file section. */
  function ReadHeader(side: Side, rest: seq<string>, section: Section): (r: Result<(Section, seq<string>), PatchError>)
    ensures r.Ok? ==> |r.value.1| <= |rest|
  {
    if rest == [] || StartsHunk(rest[0]) || StartsSection(rest[0]) then Ok((section, rest))
    else
      match ReadHeaderLine(side, rest[0], section)
      case Err(e) => Err(e)
      case Ok(next) => ReadHeader(side, rest[1..], next)
  }

  /** The section opened by a `diff --git` line. */
  function OpenSection(side: Side, header: string): Result<Section, PatchError> {
    match DiffHeader(header)
    case None => Err(OutsideSection)
    case Some((a, b)) =>
      match (NormalizePatchPath(side, a), NormalizePatchPath(side, b))
      case (Some(oldPath), Some(newPath)) => Ok(Section(Some(oldPath), Some(newPath), false, false, "", ""))
      case _ => Err(UnsafePath)
  }

  /** The checks made on the raw text before it is split into lines. */
  function Screen(text: string): Result<seq<string>, PatchError> {
    if IsBlank(text) then Err(EmptyPatch)
    else if Includes(text, "GIT binary patch") || Includes(text, "Binary files ") then Err(BinaryPatch)
    else if '\0' in text then Err(BinaryPatch)
    else Ok(Split(UnixNewlines(text), '\n'))
  }

  /** Windows line ends make no difference. */
  lemma ScreenCrLf(text: string)
    requires !Includes(text, "\r\n")
    ensures Screen(CrLf(text)) == Screen(text)
  {
    hide Includes, UnixNewlines, Split, CrLf;
    CharsOfCrLf(text);
    BlankCrLf(text);
    IncludesInCrLf(text, "GIT binary patch");
    IncludesInCrLf(text, "Binary files ");
    UnixOfCrLf(text);
    UnixNewlinesStable(text);
  }

  lemma BlankCrLf(text: string)
    ensures IsBlank(CrLf(text)) <==> IsBlank(text)
  {
    hide CrLf;
    CharsOfCrLf(text);
    assert IsSpace('\r') && IsSpace('\n');
  }
}
