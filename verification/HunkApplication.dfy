/** `applyFileHunks`: strict application of parsed hunks to the text of a file. */
module HunkApplication {
  import opened Wrappers
  import opened Text
  import opened PatchFormat

  datatype ApplyError = Overlap | ContextMismatch | RemovalMismatch | InvalidHunkLine

  /** A text as its lines and whether the last one is terminated. */
  datatype Lines = Lines(texts: seq<string>, terminated: bool)

  function BaseLines(content: string): Lines {
    if content == "" then Lines([], false)
    else
      var parts := Split(content, '\n');
      if parts[|parts| - 1] == "" then Lines(parts[..|parts| - 1], true) else Lines(parts, false)
  }

  /** `a.slice(from, to)` for non-negative bounds. */
  function Slice<T>(a: seq<T>, from: nat, to: nat): seq<T> {
    var low := if from <= |a| then from else |a|;
    var high := if to <= |a| then to else |a|;
    if low <= high then a[low..high] else []
  }

  /** 0-based position at which a hunk lands on the old side. */
  function Start(h: Hunk): nat { if h.oldStart == 0 then 0 else h.oldStart - 1 }

  datatype Progress = Progress(output: seq<string>, oldIndex: nat, newEnds: bool)

  /** No line of the hunk has been seen yet. */
  const NO_KIND: char := '\0'

  /** The terminator flag after a no-newline marker that follows a line of kind `previous`. */
  function MarkedEnds(previous: char, newEnds: bool): bool {
    if previous == '+' || previous == ' ' then false else if previous == '-' then true else newEnds
  }

  function ApplyLines(base:
      seq<string>, lines: seq<string>, p: Progress, previous: char): Result<Progress, ApplyError> {
    if lines == [] then Ok(p)
    else
      var line := lines[0];
      if line == NO_NEWLINE then ApplyLines(base, lines[1..], p.(newEnds := MarkedEnds(previous, p.newEnds)), previous)
      else if line == "" then Err(InvalidHunkLine)
      else
        var kind, text := line[0], line[1..];
        var matches := p.oldIndex < |base| && base[p.oldIndex] == text;
        if kind == ' ' then
          if matches then ApplyLines(base, lines[1..], p.(output := p.output + [text], oldIndex := p.oldIndex + 1),
              kind)
          else Err(ContextMismatch)
        else if kind == '-' then
          if matches then ApplyLines(base, lines[1..], p.(oldIndex := p.oldIndex + 1), kind) else Err(RemovalMismatch)
        else if kind == '+' then ApplyLines(base, lines[1..], p.(output := p.output + [text]), kind)
        else Err(InvalidHunkLine)
  }

  function ApplyHunks(base: seq<string>, hunks: seq<Hunk>, p: Progress): Result<Progress, ApplyError> {
    if hunks == [] then Ok(p)
    else
      var h := hunks[0];
      if Start(h) < p.oldIndex then Err(Overlap)
      else
        var landed := Progress(p.output + Slice(base, p.oldIndex, Start(h)), Start(h), p.newEnds);
        match ApplyLines(base, h.lines, landed, NO_KIND)
        case Err(e) => Err(e)
        case Ok(next) => ApplyHunks(base, hunks[1..], next)
  }

  /** The file text that a final progress stands for. */
  function Finish(base: seq<string>, p: Progress): string {
    var output := p.output + Slice(base, p.oldIndex, |base|);
    Join(output, "\n") + (if p.newEnds && output != [] then "\n" else "")
  }

  function Initial(content: string): Progress {
    Progress([], 0, if content == "" then true else BaseLines(content).terminated)
  }

  /** The whole operation as a function. */
  function Apply(content: string, hunks: seq<Hunk>): Result<string, ApplyError> {
    var base := BaseLines(content).texts;
    match ApplyHunks(base, hunks, Initial(content))
    case Err(e) => Err(e)
    case Ok(p) => Ok(Finish(base, p))
  }

  /** The loops of the source, over `oldIndex`, `output` and `newEndsWithNewline`. */
  method ApplyFileHunks(content: string, hunks: seq<Hunk>) returns (r: Result<string, ApplyError>)
    ensures r == Apply(content, hunks)
  {
    hide ApplyLines, Finish, Slice, Split;
    var baseLines := if content == "" then [] else Split(content, '\n');
    var endsWithNewline := false;
    if |baseLines| > 0 && baseLines[|baseLines| - 1] == "" {
      baseLines := baseLines[..|baseLines| - 1];
      endsWithNewline := true;
    }
    var newEnds := if content == "" then true else endsWithNewline;
    var output: seq<string> := [];
    var oldIndex: nat := 0;
    for i := 0 to |hunks|
      invariant ApplyHunks(baseLines, hunks, Initial(content))
             == ApplyHunks(baseLines, hunks[i..], Progress(output, oldIndex, newEnds))
    {
      var hunk := hunks[i];
      var startIndex := if hunk.oldStart == 0 then 0 else hunk.oldStart - 1;
      if startIndex < oldIndex { return Err(Overlap); }
      var landed := Progress(output + Slice(baseLines, oldIndex, startIndex), startIndex, newEnds);
      var applied := ApplyHunkLines(baseLines, hunk.lines, landed);
      if applied.Err? { return Err(applied.error); }
      output, oldIndex, newEnds := applied.value.output, applied.value.oldIndex, applied.value.newEnds;
    }
    return Ok(Finish(baseLines, Progress(output, oldIndex, newEnds)));
  }

  /** The inner loop over the lines of one hunk. */
  method ApplyHunkLines(baseLines:
      seq<string>, lines: seq<string>, landed: Progress) returns (r: Result<Progress, ApplyError>)
    ensures r == ApplyLines(baseLines, lines, landed, NO_KIND)
  {
    var output, newEnds := landed.output, landed.newEnds;
    var oldIndex: nat := landed.oldIndex;
    var previousKind := NO_KIND;
    for i := 0 to |lines|
      invariant ApplyLines(baseLines, lines, landed, NO_KIND)
             == ApplyLines(baseLines, lines[i..], Progress(output, oldIndex, newEnds), previousKind)
    {
      var line := lines[i];
      if line == NO_NEWLINE {
        if previousKind == '+' || previousKind == ' ' { newEnds := false; }
        if previousKind == '-' { newEnds := true; }
        continue;
      }
      if line == "" { return Err(InvalidHunkLine); }
      var kind, text := line[0], line[1..];
      if kind == ' ' {
        if oldIndex >= |baseLines| || baseLines[oldIndex] != text { return Err(ContextMismatch); }
        output, oldIndex := output + [text], oldIndex + 1;
      } else if kind == '-' {
        if oldIndex >= |baseLines| || baseLines[oldIndex] != text { return Err(RemovalMismatch); }
        oldIndex := oldIndex + 1;
      } else if kind == '+' {
        output := output + [text];
      } else {
        return Err(InvalidHunkLine);
      }
      previousKind := kind;
    }
    return Ok(Progress(output, oldIndex, newEnds));
  }

  // What a hunk says, independently of how it is applied.

  predicate ContentLine(line: string) { line != NO_NEWLINE && line != "" }
  predicate ValidLine(line: string) { line == NO_NEWLINE || (line != "" && line[0] in " +-") }
  predicate ValidLines(lines: seq<string>) { forall line <- lines :: ValidLine(line) }

  /** Texts of the context and removal lines. */
  function OldSide(lines: seq<string>): seq<string> {
    if lines == [] then []
    else (if ContentLine(lines[0]) && lines[0][0] != '+' then [lines[0][1..]] else []) + OldSide(lines[1..])
  }

  /** Texts of the context and addition lines. */
  function NewSide(lines: seq<string>): seq<string> {
    if lines == [] then []
    else (if ContentLine(lines[0]) && lines[0][0] != '-' then [lines[0][1..]] else []) + NewSide(lines[1..])
  }

  /** The terminator flag after all the markers of a hunk. */
  function Ends(lines: seq<string>, newEnds: bool, previous: char): bool {
    if lines == [] then newEnds
    else if lines[0] == NO_NEWLINE then Ends(lines[1..], MarkedEnds(previous, newEnds), previous)
    else Ends(lines[1..], newEnds, if lines[0] == "" then previous else lines[0][0])
  }

  /** `side` is found in `base` at `k`; an empty side is found anywhere. */
  predicate Matches(base: seq<string>, k: nat, side: seq<string>) {
    side == [] || (k + |side| <= |base| && base[k..k + |side|] == side)
  }

  function End(h: Hunk): nat { Start(h) + |OldSide(h.lines)| }

  /** Hunks in order, not overlapping, each old side found in the base at its start. */
  predicate Applicable(base: seq<string>, hunks: seq<Hunk>) {
    && (forall h <- hunks :: ValidLines(h.lines) && Matches(base, Start(h), OldSide(h.lines)))
    && Ordered(hunks)
  }

  predicate Ordered(hunks: seq<Hunk>) { forall i | 0 <= i < |hunks| - 1 :: End(hunks[i]) <= Start(hunks[i + 1]) }

  /** The lines after position `k` of the old side, patched. */
  function Patched(base: seq<string>, hunks: seq<Hunk>, k: nat): seq<string> {
    if hunks == [] then Slice(base, k, |base|)
    else Slice(base, k, Start(hunks[0])) + NewSide(hunks[0].lines) + Patched(base, hunks[1..], End(hunks[0]))
  }

  lemma MatchesCons(base: seq<string>, k: nat, text: string, rest: seq<string>)
    ensures Matches(base, k, [text] + rest) <==> k < |base| && base[k] == text && Matches(base, k + 1, rest)
  {
    var side := [text] + rest;
    if k + |side| <= |base| {
      assert base[k..k + |side|] == [base[k]] + base[k + 1..k + 1 + |rest|];
      if base[k..k + |side|] == side {
        assert base[k] == side[0];
        assert base[k + 1..k + 1 + |rest|] == side[1..] == rest;
      }
    }
  }

  lemma {:induction false} LinesOutcome(base: seq<string>, lines: seq<string>, p: Progress, previous: char)
    ensures var r := ApplyLines(base, lines, p, previous);
            && (r.Ok? <==> ValidLines(lines) && Matches(base, p.oldIndex, OldSide(lines)))
            && (r.Ok? ==>
                  r.value == Progress(p.output + NewSide(lines), p.oldIndex + |OldSide(lines)|,
                                      Ends(lines, p.newEnds, previous)))
  {
    if lines == [] {
      assert p.output + [] == p.output;
    } else {
      var line, rest := lines[0], lines[1..];
      assert lines == [line] + rest;
      assert ValidLines(lines) <==> ValidLine(line) && ValidLines(rest);
      if line == NO_NEWLINE {
        assert OldSide(lines) == OldSide(rest) && NewSide(lines) == NewSide(rest);
        LinesOutcome(base, rest, p.(newEnds := MarkedEnds(previous, p.newEnds)), previous);
      } else if line != "" {
        var kind, text := line[0], line[1..];
        var kept := if kind == '-' then [] else [text];
        assert NewSide(lines) == kept + NewSide(rest);
        assert p.output + NewSide(lines) == (p.output + kept) + NewSide(rest);
        if kind == '+' {
          assert OldSide(lines) == OldSide(rest);
          LinesOutcome(base, rest, p.(output := p.output + [text]), kind);
        } else {
          assert OldSide(lines) == [text] + OldSide(rest);
          MatchesCons(base, p.oldIndex, text, OldSide(rest));
          assert p.output + [] == p.output;
          if (kind == ' ' || kind == '-') && p.oldIndex < |base| && base[p.oldIndex] == text {
            LinesOutcome(base, rest, Progress(p.output + kept, p.oldIndex + 1, p.newEnds), kind);
          }
        }
      }
    }
  }

  ghost predicate ApplicableFrom(base: seq<string>, hunks: seq<Hunk>, k: nat) {
    Applicable(base, hunks) && (hunks != [] ==> k <= Start(hunks[0]))
  }

  lemma OrderedCons(hunks: seq<Hunk>)
    requires hunks != []
    ensures Ordered(hunks) <==> Ordered(hunks[1..]) && (|hunks| > 1 ==> End(hunks[0]) <= Start(hunks[1]))
  {
    hide End, Start;
    var rest := hunks[1..];
    if Ordered(rest) && (|hunks| > 1 ==> End(hunks[0]) <= Start(hunks[1])) {
      forall i | 0 <= i < |hunks| - 1 ensures End(hunks[i]) <= Start(hunks[i + 1]) {
        if i > 0 { assert hunks[i] == rest[i - 1] && hunks[i + 1] == rest[i]; }
      }
    }
    if Ordered(hunks) {
      forall i | 0 <= i < |rest| - 1 ensures End(rest[i]) <= Start(rest[i + 1]) {
        assert rest[i] == hunks[i + 1] && rest[i + 1] == hunks[i + 2];
      }
    }
  }

  lemma ApplicableCons(base: seq<string>, hunks: seq<Hunk>, k: nat)
    requires hunks != []
    ensures var h := hunks[0];
            ApplicableFrom(base, hunks, k) <==>
              k <= Start(h) && ValidLines(h.lines) && Matches(base, Start(h), OldSide(h.lines))
                  && ApplicableFrom(base, hunks[1..], End(h))
  {
    hide ValidLines, Matches, OldSide, Ordered, End, Start;
    OrderedCons(hunks);
    assert hunks == [hunks[0]] + hunks[1..];
  }

  /** Hunk by hunk: when application goes through, and what it produces. */
  lemma {:induction false} HunksOutcome(base: seq<string>, hunks: seq<Hunk>, p: Progress)
    ensures var r := ApplyHunks(base, hunks, p);
            && (r.Ok? <==> ApplicableFrom(base, hunks, p.oldIndex))
            && (r.Ok? ==>
                  r.value.output + Slice(base, r.value.oldIndex, |base|) == p.output + Patched(base, hunks, p.oldIndex))
  {
    hide Matches, ValidLines, ApplyLines, Slice, ApplicableFrom, NewSide, OldSide, Ends, Start;
    if hunks == [] {
      EmptyApplicable(base, p.oldIndex);
    } else {
      var h := hunks[0];
      ApplicableCons(base, hunks, p.oldIndex);
      if p.oldIndex <= Start(h) {
        var landed := Progress(p.output + Slice(base, p.oldIndex, Start(h)), Start(h), p.newEnds);
        LinesOutcome(base, h.lines, landed, NO_KIND);
        var r := ApplyLines(base, h.lines, landed, NO_KIND);
        if r.Ok? {
          HunksOutcome(base, hunks[1..], r.value);
          assert r.value.output + Patched(base, hunks[1..], End(h)) == p.output + Patched(base, hunks, p.oldIndex);
        }
      }
    }
  }

  lemma EmptyApplicable(base: seq<string>, k: nat)
    ensures ApplicableFrom(base, [], k)
  {
  }

  /**
   * Application succeeds exactly when the hunks are well formed, ordered and non-overlapping and
   * every old side is found in the base at its start; the result is then the patched lines.
   */
  lemma ApplySucceedsIff(content: string, hunks: seq<Hunk>)
    ensures var base := BaseLines(content).texts;
            && (Apply(content, hunks).Ok? <==> Applicable(base, hunks))
            && (Apply(content, hunks).Ok? ==>
                  var p := ApplyHunks(base, hunks, Initial(content)).value;
                  var output := Patched(base, hunks, 0);
                  Apply(content, hunks).value == Join(output, "\n") + (if p.newEnds && output != [] then "\n" else ""))
  {
    hide Applicable, Patched;
    var base := BaseLines(content).texts;
    HunksOutcome(base, hunks, Initial(content));
    assert [] + Patched(base, hunks, 0) == Patched(base, hunks, 0);
  }

  // Which error.

  /** The first line cannot be applied at `k`, and `error` says why. */
  predicate BreaksHere(base: seq<string>, k: nat, line: string, error: ApplyError) {
    match error
    case InvalidHunkLine => !ValidLine(line)
    case ContextMismatch => " " <= line && !(k < |base| && base[k] == line[1..])
    case RemovalMismatch => "-" <= line && !(k < |base| && base[k] == line[1..])
    case Overlap => false
  }

  /** Some line cannot be applied, for the reason `error`, after all lines before it can. */
  ghost predicate Breaks(base: seq<string>, k: nat, lines: seq<string>, error: ApplyError) {
    exists j | 0 <= j < |lines| :: BreaksAt(base, k, lines, j, error)
  }

  ghost predicate BreaksAt(base: seq<string>, k: nat, lines: seq<string>, j: nat, error: ApplyError)
    requires j < |lines|
  {
    var side := OldSide(lines[..j]);
    ValidLines(lines[..j]) && Matches(base, k, side) && BreaksHere(base, k + |side|, lines[j], error)
  }

  lemma BreaksFirst(base: seq<string>, k: nat, lines: seq<string>, error: ApplyError)
    requires lines != [] && BreaksHere(base, k, lines[0], error)
    ensures Breaks(base, k, lines, error)
  {
    assert lines[..0] == [] && BreaksAt(base, k, lines, 0, error);
  }

  lemma BreaksLater(base: seq<string>, k: nat, lines: seq<string>, error: ApplyError)
    requires lines != [] && ValidLine(lines[0]) && Matches(base, k, OldSide([lines[0]]))
    requires Breaks(base, k + |OldSide([lines[0]])|, lines[1..], error)
    ensures Breaks(base, k, lines, error)
  {
    hide BreaksHere, ValidLine, OldSide, Matches;
    var line, taken, rest := lines[0], OldSide([lines[0]]), lines[1..];
    var j :| 0 <= j < |rest| && BreaksAt(base, k + |taken|, rest, j, error);
    var side := OldSide(rest[..j]);
    assert lines[..j + 1] == [line] + rest[..j];
    OldSideCons(line, rest[..j]);
    OneLineSide(line);
    MatchesBoth(base, k, taken, side);
    assert ValidLines([line] + rest[..j]);
    assert BreaksAt(base, k, lines, j + 1, error);
  }

  lemma OldSideCons(line: string, rest: seq<string>)
    ensures OldSide([line] + rest) == OldSide([line]) + OldSide(rest)
  {
    OneLineSide(line);
    assert ([line] + rest)[1..] == rest;
  }

  lemma MatchesBoth(base: seq<string>, k: nat, taken: seq<string>, side: seq<string>)
    requires |taken| <= 1 && Matches(base, k, taken) && Matches(base, k + |taken|, side)
    ensures Matches(base, k, taken + side)
  {
    if taken != [] {
      MatchesCons(base, k, taken[0], side);
      MatchesCons(base, k, taken[0], []);
      assert taken == [taken[0]] && taken == [taken[0]] + [];
    } else {
      assert taken + side == side;
    }
  }

  lemma OneLineSide(line: string)
    ensures OldSide([line]) == if ContentLine(line) && line[0] != '+' then [line[1..]] else []
  {
    assert forall lines: seq<string> :: |lines| == 1 ==> lines[1..] == [];
  }

  lemma {:induction false} LineErrors(base: seq<string>, lines: seq<string>, p: Progress, previous: char)
    ensures var r := ApplyLines(base, lines, p, previous); r.Err? ==> Breaks(base, p.oldIndex, lines, r.error)
  {
    hide Breaks, ValidLines;
    var r := ApplyLines(base, lines, p, previous);
    if r.Err? {
      var line := lines[0];
      OneLineSide(line);
      if BreaksHere(base, p.oldIndex, line, r.error) {
        BreaksFirst(base, p.oldIndex, lines, r.error);
      } else {
        if line == NO_NEWLINE {
          LineErrors(base, lines[1..], p.(newEnds := MarkedEnds(previous, p.newEnds)), previous);
        } else if line[0] == '+' {
          LineErrors(base, lines[1..], p.(output := p.output + [line[1..]]), line[0]);
        } else {
          var kept := if line[0] == ' ' then [line[1..]] else [];
          assert p.output + [] == p.output;
          LineErrors(base, lines[1..], Progress(p.output + kept, p.oldIndex + 1, p.newEnds), line[0]);
        }
        BreaksLater(base, p.oldIndex, lines, r.error);
      }
    }
  }

  /** Where the hunk before hunk `i` ends on the old side. */
  function EndBefore(hunks: seq<Hunk>, i: nat): nat
    requires i <= |hunks|
  {
    if i == 0 then 0 else End(hunks[i - 1])
  }

  /** Hunk `i` is the first that cannot be applied, and `error` says why. */
  ghost predicate FailsAt(base: seq<string>, hunks: seq<Hunk>, i: nat, error: ApplyError)
    requires i < |hunks|
  {
    var h := hunks[i];
    && Applicable(base, hunks[..i])
    && if Start(h) < EndBefore(hunks, i) then error == Overlap else Breaks(base, Start(h), h.lines, error)
  }

  lemma HunkErrors(base: seq<string>, hunks: seq<Hunk>, p: Progress) returns (i: nat)
    requires ApplyHunks(base, hunks, p).Err?
    ensures i < |hunks|
    ensures var k, h := if i == 0 then p.oldIndex else End(hunks[i - 1]), hunks[i];
            && ApplicableFrom(base, hunks[..i], p.oldIndex)
            && if Start(h) < k then ApplyHunks(base, hunks, p).error == Overlap
               else Breaks(base, Start(h), h.lines, ApplyHunks(base, hunks, p).error)
  {
    hide Matches, ValidLines, ApplyLines, Slice, ApplicableFrom, NewSide, OldSide, Ends, Start, Breaks;
    var h := hunks[0];
    i := 0;
    assert hunks[..0] == [];
    EmptyApplicable(base, p.oldIndex);
    if p.oldIndex <= Start(h) {
      var landed := Progress(p.output + Slice(base, p.oldIndex, Start(h)), Start(h), p.newEnds);
      LinesOutcome(base, h.lines, landed, NO_KIND);
      LineErrors(base, h.lines, landed, NO_KIND);
      var r := ApplyLines(base, h.lines, landed, NO_KIND);
      if r.Ok? {
        var later := HunkErrors(base, hunks[1..], r.value);
        i := later + 1;
        assert hunks[..i][1..] == hunks[1..][..later] && hunks[..i][0] == h;
        ApplicableCons(base, hunks[..i], p.oldIndex);
      }
    }
  }

  /**
   * A failed application names the first hunk that cannot be applied: it overlaps the one before it, or
   * else a line of it is invalid, or is a context or a removal that the base does not have at its place.
   */
  lemma ErrorsMean(content: string, hunks: seq<Hunk>)
    ensures Apply(content, hunks).Err? ==>
              exists i | 0 <= i < |hunks| :: FailsAt(BaseLines(content).texts, hunks, i, Apply(content, hunks).error)
  {
    hide Applicable, Breaks, BaseLines, Start, End;
    if Apply(content, hunks).Err? {
      var base := BaseLines(content).texts;
      var i := HunkErrors(base, hunks, Initial(content));
      assert FailsAt(base, hunks, i, Apply(content, hunks).error);
    }
  }

  /** The text that lines stand for. */
  function TextOf(lines: Lines): string {
    Join(lines.texts, "\n") + (if lines.terminated && lines.texts != [] then "\n" else "")
  }

  lemma TextOfBaseLines(content: string)
    ensures TextOf(BaseLines(content)) == content
  {
    hide Split, Join;
    JoinSplit(content, '\n');
    EmptyJoin();
    if content != "" {
      var parts := Split(content, '\n');
      if parts[|parts| - 1] == "" {
        var texts := parts[..|parts| - 1];
        assert parts == texts + [""];
        assert texts == [] ==> parts == [""];
        if texts != [] { JoinAppend(texts, [""], "\n"); }
      }
    }
  }

  lemma EmptyJoin()
    ensures Join([], "\n") == "" && Join([""], "\n") == ""
  {
  }

  /** With no hunks every text is returned unchanged. */
  lemma NoHunksIsIdentity(content: string)
    ensures Apply(content, []) == Ok(content)
  {
    hide BaseLines, Join;
    var texts := BaseLines(content).texts;
    TextOfBaseLines(content);
    assert [] + Slice(texts, 0, |texts|) == texts;
    EmptyJoin();
    EmptyBase();
  }

  lemma EmptyBase()
    ensures BaseLines("") == Lines([], false)
  {
  }

  // Line counts.

  function Count(lines: seq<string>, kind: char): nat {
    if lines == [] then 0
    else (if ContentLine(lines[0]) && lines[0][0] == kind then 1 else 0) + Count(lines[1..], kind)
  }

  function Additions(hunks: seq<Hunk>): nat {
    if hunks == [] then 0 else Count(hunks[0].lines, '+') + Additions(hunks[1..])
  }
  function Deletions(hunks: seq<Hunk>): nat {
    if hunks == [] then 0 else Count(hunks[0].lines, '-') + Deletions(hunks[1..])
  }

  lemma {:induction false} SidesCount(lines: seq<string>)
    ensures |NewSide(lines)| + Count(lines, '-') == |OldSide(lines)| + Count(lines, '+')
  {
    if lines != [] { SidesCount(lines[1..]); }
  }

  lemma {:induction false} PatchedCount(base: seq<string>, hunks: seq<Hunk>, k: nat)
    requires ApplicableFrom(base, hunks, k)
    ensures |Patched(base, hunks, k)| + Deletions(hunks) == |Slice(base, k, |base|)| + Additions(hunks)
  {
    if hunks != [] {
      ApplicableCons(base, hunks, k);
      SidesCount(hunks[0].lines);
      PatchedCount(base, hunks[1..], End(hunks[0]));
    }
  }

  /** On success the number of lines is that of the base plus additions minus deletions. */
  lemma ApplyLineCount(content: string, hunks: seq<Hunk>)
    requires Apply(content, hunks).Ok?
    ensures var base := BaseLines(content).texts;
            |Patched(base, hunks, 0)| == |base| + Additions(hunks) - Deletions(hunks)
  {
    ApplySucceedsIff(content, hunks);
    PatchedCount(BaseLines(content).texts, hunks, 0);
  }

  // Undoing a patch.

  function SwapLine(line: string): string {
    if !ContentLine(line) then line
    else if line[0] == '+' then "-" + line[1..]
    else if line[0] == '-' then "+" + line[1..]
    else line
  }

  function SwapLines(lines: seq<string>): seq<string> {
    if lines == [] then [] else [SwapLine(lines[0])] + SwapLines(lines[1..])
  }

  /** The sign-swapped hunks at the positions where the hunks landed; `k` old and `pos` new lines precede. */
  function Inverted(hunks: seq<Hunk>, k: nat, pos: nat): seq<Hunk>
    requires Ordered(hunks) && (hunks != [] ==> k <= Start(hunks[0]))
  {
    if hunks == [] then []
    else
      var h := hunks[0];
      var landing := pos + (Start(h) - k);
      assert Ordered(hunks[1..]) && (|hunks| > 1 ==> End(h) <= Start(hunks[1])) by { OrderedCons(hunks); }
      [Hunk(landing + 1, h.newLines, Start(h) + 1, h.oldLines, SwapLines(h.lines))]
      + Inverted(hunks[1..], End(h), landing + |NewSide(h.lines)|)
  }

  predicate InRange(base: seq<string>, hunks: seq<Hunk>) { forall h <- hunks :: Start(h) <= |base| }

  lemma {:induction false} SwapSides(lines: seq<string>)
    requires ValidLines(lines)
    ensures OldSide(SwapLines(lines)) == NewSide(lines) && NewSide(SwapLines(lines)) == OldSide(lines)
    ensures ValidLines(SwapLines(lines))
  {
    if lines != [] {
      assert ValidLine(lines[0]);
      SwapSides(lines[1..]);
      var swapped := SwapLine(lines[0]);
      assert SwapLines(lines)[1..] == SwapLines(lines[1..]);
      assert NO_NEWLINE[0] == '\\';
      assert ContentLine(swapped) == ContentLine(lines[0]);
      assert ContentLine(swapped) ==> swapped[1..] == lines[0][1..];
    }
  }

  /** The first sign-swapped hunk fits the patched lines `done + gap + new side + later`. */
  lemma FirstInverse(done: seq<string>, gap: seq<string>, lines: seq<string>, later: seq<string>, g: Hunk)
    requires Start(g) == |done| + |gap| && g.lines == SwapLines(lines) && ValidLines(lines)
    ensures var out := done + gap + NewSide(lines) + later;
            && ValidLines(g.lines) && Matches(out, Start(g), OldSide(g.lines)) && NewSide(g.lines) == OldSide(lines)
            && End(g) == |done + gap + NewSide(lines)| && Slice(out, |done|, Start(g)) == gap
  {
    hide ValidLines, NewSide, OldSide, SwapLines;
    SwapSides(lines);
    var out := done + gap + NewSide(lines) + later;
    assert out[Start(g)..Start(g) + |NewSide(lines)|] == NewSide(lines);
    assert out[|done|..Start(g)] == gap;
  }

  /** One hunk is undone, given that the hunks after it are. */
  lemma InvertOne(base: seq<string>, h: Hunk, k: nat, done: seq<string>, later: seq<string>, g: Hunk, rest: seq<Hunk>)
    requires k <= Start(h) <= |base| && ValidLines(h.lines) && Matches(base, Start(h), OldSide(h.lines))
    requires Start(g) == |done| + Start(h) - k && g.lines == SwapLines(h.lines)
    requires var end: nat := |done| + (Start(h) - k) + |NewSide(h.lines)|;
             var out := done + base[k..Start(h)] + NewSide(h.lines) + later;
             End(h) <= |base| && ApplicableFrom(out, rest, end) && Patched(out, rest, end) == base[End(h)..]
    ensures var out := done + base[k..Start(h)] + NewSide(h.lines) + later;
            ApplicableFrom(out, [g] + rest, |done|) && Patched(out, [g] + rest, |done|) == base[k..]
  {
    hide ValidLines, NewSide, OldSide, SwapLines, ApplicableFrom, Ordered, Matches, Slice, Start;
    var gap := base[k..Start(h)];
    var out := done + gap + NewSide(h.lines) + later;
    FirstInverse(done, gap, h.lines, later, g);
    var inverse := [g] + rest;
    assert inverse[0] == g && inverse[1..] == rest;
    ApplicableCons(out, inverse, |done|);
    EndInRange(base, h);
    Rejoin(base, k, Start(h), End(h), OldSide(h.lines));
  }

  lemma InvertedCons(hunks: seq<Hunk>, k: nat, pos: nat)
    requires hunks != [] && Ordered(hunks) && k <= Start(hunks[0])
    ensures var h := hunks[0];
            var inverse := Inverted(hunks, k, pos);
            var end: nat := pos + (Start(h) - k) + |NewSide(h.lines)|;
            && Ordered(hunks[1..]) && (hunks[1..] != [] ==> End(h) <= Start(hunks[1..][0]))
            && inverse == [inverse[0]] + Inverted(hunks[1..], End(h), end)
            && Start(inverse[0]) == pos + Start(h) - k && inverse[0].lines == SwapLines(h.lines)
  {
    hide NewSide, OldSide, SwapLines, Ordered, ValidLines;
    OrderedCons(hunks);
  }

  lemma InRangeCons(base: seq<string>, hunks: seq<Hunk>)
    requires hunks != [] && InRange(base, hunks)
    ensures Start(hunks[0]) <= |base| && InRange(base, hunks[1..])
  {
  }

  lemma PatchedCons(base: seq<string>, hunks: seq<Hunk>, k: nat, done: seq<string>)
    requires hunks != [] && k <= Start(hunks[0]) <= |base|
    ensures var h := hunks[0];
            done + Patched(base, hunks, k)
            == done + base[k..Start(h)] + NewSide(h.lines) + Patched(base, hunks[1..], End(h))
  {
    hide Start, End, NewSide;
    assert Slice(base, k, Start(hunks[0])) == base[k..Start(hunks[0])];
  }

  lemma {:induction false} InvertedRestores(base: seq<string>, hunks: seq<Hunk>, k: nat, done: seq<string>)
    requires k <= |base| && InRange(base, hunks) && Ordered(hunks) && (hunks != [] ==> k <= Start(hunks[0]))
    requires ApplicableFrom(base, hunks, k)
    ensures var out := done + Patched(base, hunks, k);
            && ApplicableFrom(out, Inverted(hunks, k, |done|), |done|)
            && Patched(out, Inverted(hunks, k, |done|), |done|) == base[k..]
  {
    hide *;
    if hunks == [] {
      InvertNothing(base, k, done);
    } else {
      var h := hunks[0];
      ApplicableCons(base, hunks, k);
      InvertedCons(hunks, k, |done|);
      InRangeCons(base, hunks);
      PatchedCons(base, hunks, k, done);
      EndInRange(base, h);
      var next := done + base[k..Start(h)] + NewSide(h.lines);
      InvertedRestores(base, hunks[1..], End(h), next);
      InvertOne(base, h, k, done, Patched(base, hunks[1..], End(h)), Inverted(hunks, k, |done|)[0],
          Inverted(hunks[1..], End(h), |next|));
    }
  }

  lemma InvertNothing(base: seq<string>, k: nat, done: seq<string>)
    requires k <= |base|
    ensures var out := done + Patched(base, [], k);
            && Inverted([], k, |done|) == [] && ApplicableFrom(out, [], |done|)
            && Patched(out, [], |done|) == base[k..]
  {
    hide Ordered, ApplicableFrom;
    var out := done + Patched(base, [], k);
    assert out == done + base[k..];
    assert Slice(out, |done|, |out|) == base[k..];
    EmptyApplicable(out, |done|);
  }

  lemma EndInRange(base: seq<string>, h: Hunk)
    requires Start(h) <= |base| && Matches(base, Start(h), OldSide(h.lines))
    ensures End(h) <= |base| && base[Start(h)..End(h)] == OldSide(h.lines)
  {
  }

  lemma Rejoin(base: seq<string>, k: nat, a: nat, b: nat, middle: seq<string>)
    requires k <= a <= b <= |base| && base[a..b] == middle
    ensures base[k..a] + middle + base[b..] == base[k..]
  {
  }

  /**
   * Applying the sign-swapped hunks at the landing positions to the patched lines gives back the
   * base lines, for hunks that start within the base.
   */
  lemma SwappedPatchRestores(base: seq<string>, hunks: seq<Hunk>)
    requires Applicable(base, hunks) && InRange(base, hunks)
    ensures var out := Patched(base, hunks, 0);
            Applicable(out, Inverted(hunks, 0, 0)) && Patched(out, Inverted(hunks, 0, 0), 0) == base
  {
    InvertedRestores(base, hunks, 0, []);
    assert [] + Patched(base, hunks, 0) == Patched(base, hunks, 0);
  }
}
