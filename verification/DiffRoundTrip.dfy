/**
 * Diff, then apply: the hunks rendered from an edit script between two texts, applied to the first
 * text, give the second, final newline included.
 */
module DiffRoundTrip {
  import opened Wrappers
  import opened Text
  import opened PatchFormat
  import opened HunkApplication
  import Printer = PatchPrinter

  /** A line of a text; only the last line of a text can be unterminated. */
  datatype Line = Line(text: string, terminated: bool)

  datatype Edit = Keep(line: Line) | Del(line: Line) | Ins(line: Line)

  /** A script is cut into runs of kept lines that no hunk shows, and hunks. */
  datatype Segment = Gap(lines: seq<Line>) | Change(edits: seq<Edit>)

  function Tagged(texts: seq<string>, terminated: bool): seq<Line> {
    if texts == [] then [] else [Line(texts[0], |texts| > 1 || terminated)] + Tagged(texts[1..], terminated)
  }

  /** The lines of a text. */
  function LinesOf(content: string): seq<Line> { Tagged(BaseLines(content).texts, BaseLines(content).terminated) }

  function Texts(lines: seq<Line>): seq<string> { if lines == [] then [] else [lines[0].text] + Texts(lines[1..]) }

  function OldOf(script: seq<Edit>): seq<Line> {
    if script == [] then [] else (if script[0].Ins? then [] else [script[0].line]) + OldOf(script[1..])
  }

  function NewOf(script: seq<Edit>): seq<Line> {
    if script == [] then [] else (if script[0].Del? then [] else [script[0].line]) + NewOf(script[1..])
  }

  function Keeps(lines: seq<Line>): seq<Edit> { if lines == [] then [] else [Keep(lines[0])] + Keeps(lines[1..]) }

  /** The edit script that the segments cut. */
  function Script(segments: seq<Segment>): seq<Edit> {
    if segments == [] then []
    else (match segments[0] case Gap(lines) => Keeps(lines) case Change(edits) => edits) + Script(segments[1..])
  }

  /** A line of a hunk, with the marker git puts after an unterminated one. */
  function EditLine(e: Edit): seq<string> {
    var sign := match e case Keep(_) => " " case Del(_) => "-" case Ins(_) => "+";
    [sign + e.line.text] + (if e.line.terminated then [] else [NO_NEWLINE])
  }

  function EditLines(edits: seq<Edit>): seq<string> {
    if edits == [] then [] else EditLine(edits[0]) + EditLines(edits[1..])
  }

  /** The position git writes: the first line of the side, or the line before an empty side. */
  function GitStart(position: nat, count: nat): nat { if count == 0 then position else position + 1 }

  function HunkOf(edits: seq<Edit>, oldPos: nat, newPos: nat): Hunk {
    var o, n := |OldOf(edits)|, |NewOf(edits)|;
    Hunk(GitStart(oldPos, o), o, GitStart(newPos, n), n, EditLines(edits))
  }

  function Render(segments: seq<Segment>, oldPos: nat, newPos: nat): seq<Hunk> {
    if segments == [] then []
    else
      match segments[0]
      case Gap(lines) => Render(segments[1..], oldPos + |lines|, newPos + |lines|)
      case Change(edits) =>
        [HunkOf(edits, oldPos, newPos)] + Render(segments[1..], oldPos + |OldOf(edits)|, newPos + |NewOf(edits)|)
  }

  /** The code finds a hunk at the position git means if its old side is non-empty or it starts the file. */
  predicate Found(edits: seq<Edit>, oldPos: nat) { OldOf(edits) != [] || oldPos == 0 }

  predicate Placed(segments: seq<Segment>, oldPos: nat) {
    segments == [] ||
    match segments[0]
    case Gap(lines) => Placed(segments[1..], oldPos + |lines|)
    case Change(edits) => Found(edits, oldPos) && Placed(segments[1..], oldPos + |OldOf(edits)|)
  }

  /**
   * No hunk that lands a line early touches the hunk before it; `k` is the old line up to which the
   * code has come.
   */
  predicate Clear(segments: seq<Segment>, k: nat, oldPos: nat) {
    segments == [] ||
    match segments[0]
    case Gap(lines) => Clear(segments[1..], k, oldPos + |lines|)
    case Change(edits) =>
      if Found(edits, oldPos) then Clear(segments[1..], oldPos + |OldOf(edits)|, oldPos + |OldOf(edits)|)
      else k < oldPos && Clear(segments[1..], oldPos - 1, oldPos)
  }

  /** Every line added by a hunk that lands a line early equals the base line it lands before. */
  predicate Unmoved(base: seq<string>, segments: seq<Segment>, oldPos: nat) {
    segments == [] ||
    match segments[0]
    case Gap(lines) => Unmoved(base, segments[1..], oldPos + |lines|)
    case Change(edits) =>
      && (Found(edits, oldPos) || (oldPos <= |base| && AllAre(Texts(NewOf(edits)), base[oldPos - 1])))
      && Unmoved(base, segments[1..], oldPos + |OldOf(edits)|)
  }

  predicate AllAre(texts: seq<string>, line: string) { forall t <- texts :: t == line }

  /** Unterminated removal. */
  predicate DropsEnd(script: seq<Edit>) { exists e <- script :: e.Del? && !e.line.terminated }

  /** An unterminated addition comes before an unterminated removal. */
  predicate Misordered(script: seq<Edit>) {
    script != [] && ((script[0].Ins? && !script[0].line.terminated && DropsEnd(script[1..])) || Misordered(script[1..]))
  }

  /** Removals come before additions, as git writes them: no addition is directly followed by a removal. */
  predicate RemovalsFirst(script: seq<Edit>) {
    forall i | 0 <= i < |script| - 1 && script[i].Ins? :: !script[i + 1].Del?
  }

  // Texts and lines.

  lemma {:induction false} TextsAppend(a: seq<Line>, b: seq<Line>)
    ensures Texts(a + b) == Texts(a) + Texts(b) && |Texts(a)| == |a|
  {
    if a == [] {
      assert a + b == b;
    } else {
      assert (a + b)[1..] == a[1..] + b;
      TextsAppend(a[1..], b);
    }
  }

  lemma {:induction false} OldAppend(a: seq<Edit>, b: seq<Edit>)
    ensures OldOf(a + b) == OldOf(a) + OldOf(b)
  {
    if a == [] {
      assert a + b == b;
    } else {
      assert (a + b)[1..] == a[1..] + b;
      OldAppend(a[1..], b);
    }
  }

  lemma {:induction false} NewAppend(a: seq<Edit>, b: seq<Edit>)
    ensures NewOf(a + b) == NewOf(a) + NewOf(b)
  {
    if a == [] {
      assert a + b == b;
    } else {
      assert (a + b)[1..] == a[1..] + b;
      NewAppend(a[1..], b);
    }
  }

  lemma ScriptCons(first: Segment, rest: seq<Segment>)
    ensures var edits := match first case Gap(lines) => Keeps(lines) case Change(edits) => edits;
            && Texts(OldOf(Script([first] + rest))) == Texts(OldOf(edits)) + Texts(OldOf(Script(rest)))
            && Texts(NewOf(Script([first] + rest))) == Texts(NewOf(edits)) + Texts(NewOf(Script(rest)))
            && |Texts(OldOf(edits))| == |OldOf(edits)|
  {
    hide OldOf, NewOf, Texts, Keeps;
    var edits := match first case Gap(lines) => Keeps(lines) case Change(edits) => edits;
    assert ([first] + rest)[1..] == rest;
    OldAppend(edits, Script(rest));
    NewAppend(edits, Script(rest));
    TextsAppend(OldOf(edits), OldOf(Script(rest)));
    TextsAppend(NewOf(edits), NewOf(Script(rest)));
  }

  lemma {:induction false} KeepsSides(lines: seq<Line>)
    ensures OldOf(Keeps(lines)) == lines && NewOf(Keeps(lines)) == lines
  {
    if lines != [] {
      assert Keeps(lines)[1..] == Keeps(lines[1..]);
      KeepsSides(lines[1..]);
    }
  }

  lemma {:induction false} TaggedTexts(texts: seq<string>, terminated: bool)
    ensures Texts(Tagged(texts, terminated)) == texts
  {
    if texts != [] { TaggedTexts(texts[1..], terminated); }
  }

  /** Only the last line can be unterminated. */
  predicate Proper(lines: seq<Line>) { forall i | 0 <= i < |lines| - 1 :: lines[i].terminated }
  predicate Unended(lines: seq<Line>) { lines != [] && !lines[|lines| - 1].terminated }

  lemma {:induction false} TaggedProper(texts: seq<string>, terminated: bool)
    ensures var lines := Tagged(texts, terminated);
            |lines| == |texts| && Proper(lines) && (Unended(lines) <==> texts != [] && !terminated)
  {
    if texts != [] { TaggedProper(texts[1..], terminated); }
  }

  lemma ProperTail(lines: seq<Line>, rest: seq<Line>, first: Line)
    requires lines == [first] + rest && Proper(lines)
    ensures Proper(rest) && (!first.terminated ==> rest == []) && (rest != [] ==> (Unended(lines) <==> Unended(rest)))
    ensures rest == [] ==> (Unended(lines) <==> !first.terminated)
  {
    if rest != [] { assert lines[0].terminated; }
    forall i | 0 <= i < |rest| - 1 ensures rest[i].terminated { assert rest[i] == lines[i + 1]; }
  }

  // What the rendered hunks say.

  lemma EditLineSides(e: Edit, rest: seq<string>)
    ensures OldSide(EditLine(e) + rest) == (if e.Ins? then [] else [e.line.text]) + OldSide(rest)
    ensures NewSide(EditLine(e) + rest) == (if e.Del? then [] else [e.line.text]) + NewSide(rest)
    ensures ValidLines(rest) ==> ValidLines(EditLine(e) + rest)
  {
    hide OldSide, NewSide, ValidLines;
    var line := EditLine(e)[0];
    assert line[0] != NO_NEWLINE[0] && line[1..] == e.line.text;
    var tail := if e.line.terminated then rest else [NO_NEWLINE] + rest;
    assert EditLine(e) + rest == [line] + tail;
    LineSides(line, tail);
    if !e.line.terminated { MarkerSides(rest); }
  }

  lemma LineSides(line: string, tail: seq<string>)
    requires ContentLine(line) && line[0] in " +-"
    ensures OldSide([line] + tail) == (if line[0] == '+' then [] else [line[1..]]) + OldSide(tail)
    ensures NewSide([line] + tail) == (if line[0] == '-' then [] else [line[1..]]) + NewSide(tail)
    ensures ValidLines(tail) ==> ValidLines([line] + tail)
  {
    assert ([line] + tail)[1..] == tail;
  }

  lemma MarkerSides(tail: seq<string>)
    ensures OldSide([NO_NEWLINE] + tail) == OldSide(tail) && NewSide([NO_NEWLINE] + tail) == NewSide(tail)
    ensures ValidLines(tail) ==> ValidLines([NO_NEWLINE] + tail)
  {
    assert ([NO_NEWLINE] + tail)[1..] == tail;
  }

  lemma {:induction false} EditLinesSides(edits: seq<Edit>)
    ensures OldSide(EditLines(edits)) == Texts(OldOf(edits)) && NewSide(EditLines(edits)) == Texts(NewOf(edits))
    ensures ValidLines(EditLines(edits))
  {
    if edits != [] {
      EditLinesSides(edits[1..]);
      EditLineSides(edits[0], EditLines(edits[1..]));
      TextsAppend(if edits[0].Ins? then [] else [edits[0].line], OldOf(edits[1..]));
      TextsAppend(if edits[0].Del? then [] else [edits[0].line], NewOf(edits[1..]));
    }
  }

  // Lines: when the rendered hunks apply, and when they produce the new lines.

  lemma MatchesHere(base: seq<string>, at: nat, side: seq<string>, rest: seq<string>)
    requires at <= |base| && base[at..] == side + rest
    ensures Matches(base, at, side) && at + |side| <= |base|
    ensures base[at + |side|..] == rest && base[at..at + |side|] == side
  {
    assert base[at..][..|side|] == side && base[at..][|side|..] == rest;
  }

  /** Where the code finds a rendered hunk. */
  function Landing(edits: seq<Edit>, oldPos: nat): nat { if Found(edits, oldPos) then oldPos else oldPos - 1 }

  lemma HunkPlace(edits: seq<Edit>, oldPos: nat, newPos: nat)
    ensures var h := HunkOf(edits, oldPos, newPos);
            && Start(h) == Landing(edits, oldPos) && End(h) == Landing(edits, oldPos) + |OldOf(edits)|
            && OldSide(h.lines) == Texts(OldOf(edits)) && NewSide(h.lines) == Texts(NewOf(edits)) && ValidLines(h.lines)
  {
    EditLinesSides(edits);
    TextsAppend(OldOf(edits), []);
  }

  /** The state of the walk: the code has come to `k`, and the segments start at `oldPos`. */
  ghost predicate Fits(base: seq<string>, segments: seq<Segment>, k: nat, oldPos: nat) {
    k <= oldPos <= |base| && base[oldPos..] == Texts(OldOf(Script(segments)))
  }

  /** The lines still to be produced. */
  ghost function Wanted(base: seq<string>, segments: seq<Segment>, k: nat, oldPos: nat): seq<string>
    requires k <= oldPos <= |base|
  {
    base[k..oldPos] + Texts(NewOf(Script(segments)))
  }

  lemma FitsGap(base: seq<string>, lines: seq<Line>, rest: seq<Segment>, k: nat, oldPos: nat)
    requires Fits(base, [Gap(lines)] + rest, k, oldPos)
    ensures Fits(base, rest, k, oldPos + |lines|) && k <= oldPos && oldPos + |lines| <= |base|
    ensures Wanted(base, [Gap(lines)] + rest, k, oldPos) == Wanted(base, rest, k, oldPos + |lines|)
  {
    hide OldOf, NewOf, Texts, Keeps, Script;
    assert ([Gap(lines)] + rest)[1..] == rest;
    ScriptCons(Gap(lines), rest);
    KeepsSides(lines);
    MatchesHere(base, oldPos, Texts(lines), Texts(OldOf(Script(rest))));
    assert base[k..oldPos + |lines|] == base[k..oldPos] + base[oldPos..oldPos + |lines|];
  }

  lemma FitsChange(base: seq<string>, edits: seq<Edit>, rest: seq<Segment>, k: nat, oldPos: nat)
    requires Fits(base, [Change(edits)] + rest, k, oldPos)
    ensures var at := Landing(edits, oldPos); Fits(base, rest, at + |OldOf(edits)|, oldPos + |OldOf(edits)|)
    ensures Matches(base, Landing(edits, oldPos), Texts(OldOf(edits)))
    ensures Landing(edits, oldPos) <= oldPos && oldPos + |OldOf(edits)| <= |base|
  {
    hide OldOf, NewOf, Texts, Keeps, Script, Matches, Found;
    ScriptCons(Change(edits), rest);
    MatchesHere(base, oldPos, Texts(OldOf(edits)), Texts(OldOf(Script(rest))));
    FoundOrEmpty(base, edits, oldPos);
  }

  lemma WantedChange(base: seq<string>, edits: seq<Edit>, rest: seq<Segment>, k: nat, oldPos: nat)
    requires k <= oldPos <= |base|
    ensures Wanted(base, [Change(edits)] + rest, k, oldPos)
         == base[k..oldPos] + Texts(NewOf(edits)) + Texts(NewOf(Script(rest)))
  {
    hide OldOf, NewOf, Texts, Keeps, Script;
    ScriptCons(Change(edits), rest);
    Regroup(base[k..oldPos], Texts(NewOf(edits)), Texts(NewOf(Script(rest))));
  }

  lemma Regroup(a: seq<string>, b: seq<string>, c: seq<string>)
    ensures a + b + c == a + (b + c)
  {
  }

  lemma FoundOrEmpty(base: seq<string>, edits: seq<Edit>, oldPos: nat)
    ensures !Found(edits, oldPos) ==>
              OldOf(edits) == [] && |OldOf(edits)| == 0 && oldPos > 0 && Matches(base, oldPos - 1, Texts(OldOf(edits)))
  {
  }

  lemma PatchedStep(base: seq<string>, h: Hunk, rest: seq<Hunk>, k: nat)
    requires k <= |base| && Start(h) <= |base| && ValidLines(h.lines) && Matches(base, Start(h), OldSide(h.lines))
    ensures ApplicableFrom(base, [h] + rest, k) <==> k <= Start(h) && ApplicableFrom(base, rest, End(h))
    ensures k <= Start(h) ==>
              Patched(base, [h] + rest, k) == base[k..Start(h)] + NewSide(h.lines) + Patched(base, rest, End(h))
  {
    hide ValidLines, Matches, OldSide, NewSide, ApplicableFrom, Start;
    var hunks := [h] + rest;
    assert hunks[1..] == rest && hunks[0] == h;
    ApplicableCons(base, hunks, k);
    if k <= Start(h) { assert Slice(base, k, Start(h)) == base[k..Start(h)]; }
  }

  lemma RenderGap(lines: seq<Line>, rest: seq<Segment>, oldPos: nat, newPos: nat)
    ensures Render([Gap(lines)] + rest, oldPos, newPos) == Render(rest, oldPos + |lines|, newPos + |lines|)
  {
    assert ([Gap(lines)] + rest)[1..] == rest;
  }

  lemma RenderChange(edits: seq<Edit>, rest: seq<Segment>, oldPos: nat, newPos: nat)
    ensures Render([Change(edits)] + rest, oldPos, newPos)
         == [HunkOf(edits, oldPos, newPos)] + Render(rest, oldPos + |OldOf(edits)|, newPos + |NewOf(edits)|)
  {
    hide HunkOf;
    assert ([Change(edits)] + rest)[1..] == rest;
  }

  /** Each hunk says something the base can answer, wherever the hunk before it ended. */
  ghost predicate Answered(base: seq<string>, hunks: seq<Hunk>) {
    forall h <- hunks :: ValidLines(h.lines) && Matches(base, Start(h), OldSide(h.lines))
  }

  lemma AnsweredCons(base: seq<string>, h: Hunk, rest: seq<Hunk>)
    requires ValidLines(h.lines) && Matches(base, Start(h), OldSide(h.lines)) && Answered(base, rest)
    ensures Answered(base, [h] + rest)
  {
    hide ValidLines, Matches, OldSide, Start;
  }

  lemma AcrossSelf(added: seq<string>, line: string)
    ensures added == ([line] + added)[..|added|] <==> AllAre(added, line)
  {
    if added == ([line] + added)[..|added|] {
      forall i | 0 <= i < |added| ensures added[i] == line { PrefixAll(added, line, i); }
    }
    if AllAre(added, line) {
      forall i | 0 <= i < |added| ensures added[i] == ([line] + added)[i] {
        assert added[i] in added;
        assert i > 0 ==> added[i - 1] in added;
      }
    }
  }

  lemma {:induction false} PrefixAll(added: seq<string>, line: string, i: nat)
    requires added == ([line] + added)[..|added|] && i < |added|
    ensures added[i] == line
  {
    assert added[i] == ([line] + added)[i];
    if i > 0 { PrefixAll(added, line, i - 1); }
  }

  /** Added lines put before a base line instead of after it: nothing is lost only if they all equal it. */
  lemma AcrossLine(front: seq<string>, added: seq<string>, later: seq<string>, line: string, rest: seq<string>)
    requires |later| == 1 + |rest|
    ensures front + added + later == front + [line] + added + rest <==> AllAre(added, line) && later == [line] + rest
  {
    hide AllAre;
    var n := |added|;
    AcrossSelf(added, line);
    var x, y := added + later, [line] + added + rest;
    assert front + added + later == front + x && front + [line] + added + rest == front + y;
    assert x[..n] == added && x[n..] == later;
    assert y[..n] == ([line] + added)[..n] && y[n..] == ([line] + added)[n..] + rest;
    LastOfAll(added, line);
    if front + x == front + y { assert x == (front + x)[|front|..] == (front + y)[|front|..] == y; }
    if x == y { assert later == [line] + rest; }
    if AllAre(added, line) && later == [line] + rest { assert x == x[..n] + x[n..] == y[..n] + y[n..] == y; }
  }

  lemma LastOfAll(added: seq<string>, line: string)
    ensures AllAre(added, line) ==> ([line] + added)[|added|..] == [line]
  {
    assert added != [] ==> added[|added| - 1] in added;
  }

  /** The rendered hunks apply exactly when none touches; they give the wanted lines exactly when none moves them. */
  lemma {:induction false} RenderedLines(base: seq<string>, segments: seq<Segment>, k: nat, oldPos: nat, newPos: nat)
    requires Fits(base, segments, k, oldPos) && k <= oldPos <= |base|
    ensures var hunks := Render(segments, oldPos, newPos);
            && Answered(base, hunks) && (ApplicableFrom(base, hunks, k) <==> Clear(segments, k, oldPos))
            && (Clear(segments, k, oldPos) ==> LinesRight(base, segments, hunks, k, oldPos))
  {
    hide *;
    if segments == [] {
      RenderedNothing(base, k, oldPos, newPos);
    } else {
      var rest := segments[1..];
      assert segments == [segments[0]] + rest;
      match segments[0] {
        case Gap(lines) =>
          FitsGap(base, lines, rest, k, oldPos);
          RenderGap(lines, rest, oldPos, newPos);
          RenderedLines(base, rest, k, oldPos + |lines|, newPos + |lines|);
          GapOver(base, lines, rest, Render(rest, oldPos + |lines|, newPos + |lines|), k, oldPos);
        case Change(edits) =>
          var at, after := Landing(edits, oldPos), oldPos + |OldOf(edits)|;
          FitsChange(base, edits, rest, k, oldPos);
          HunkPlace(edits, oldPos, newPos);
          RenderChange(edits, rest, oldPos, newPos);
          WantedChange(base, edits, rest, k, oldPos);
          RenderedLines(base, rest, at + |OldOf(edits)|, after, newPos + |NewOf(edits)|);
          var hunks := Render(rest, after, newPos + |NewOf(edits)|);
          var h := HunkOf(edits, oldPos, newPos);
          AnsweredCons(base, h, hunks);
          PatchedStep(base, h, hunks, k);
          ChangeOver(base, edits, rest, h, hunks, k, oldPos);
      }
    }
  }

  /** The hunks produce as many lines as wanted, and the wanted ones exactly when none is moved. */
  ghost predicate LinesRight(base: seq<string>, segments: seq<Segment>, hunks: seq<Hunk>, k: nat, oldPos: nat)
    requires k <= oldPos <= |base|
  {
    && |Patched(base, hunks, k)| == |Wanted(base, segments, k, oldPos)|
    && (Patched(base, hunks, k) == Wanted(base, segments, k, oldPos) <==> Unmoved(base, segments, oldPos))
  }

  lemma GapOver(base: seq<string>, lines: seq<Line>, rest: seq<Segment>, hunks: seq<Hunk>, k: nat, oldPos: nat)
    requires k <= oldPos && oldPos + |lines| <= |base|
    requires Wanted(base, [Gap(lines)] + rest, k, oldPos) == Wanted(base, rest, k, oldPos + |lines|)
    ensures Clear([Gap(lines)] + rest, k, oldPos) == Clear(rest, k, oldPos + |lines|)
    ensures LinesRight(base, [Gap(lines)] + rest, hunks, k, oldPos)
          == LinesRight(base, rest, hunks, k, oldPos + |lines|)
  {
    hide Wanted, Patched;
    assert ([Gap(lines)] + rest)[1..] == rest;
  }

  lemma ChangeOver(base: seq<string>, edits: seq<Edit>, rest: seq<Segment>, h: Hunk, hunks: seq<Hunk>, k: nat,
      oldPos: nat)
    requires var at := Landing(edits, oldPos); var after := oldPos + |OldOf(edits)|;
             && k <= oldPos <= after <= |base| && Start(h) == at && End(h) == at + |OldOf(edits)| <= after
             && (Clear(rest, End(h), after) ==> LinesRight(base, rest, hunks, End(h), after))
    requires Wanted(base, [Change(edits)] + rest, k, oldPos)
          == base[k..oldPos] + Texts(NewOf(edits)) + Texts(NewOf(Script(rest)))
    requires k <= Start(h) <= |base| ==>
              Patched(base, [h] + hunks, k) == base[k..Start(h)] + Texts(NewOf(edits)) + Patched(base, hunks, End(h))
    ensures Clear([Change(edits)] + rest, k, oldPos) <==> k <= Start(h) && Clear(rest, End(h), oldPos + |OldOf(edits)|)
    ensures Clear([Change(edits)] + rest, k, oldPos)
          ==> LinesRight(base, [Change(edits)] + rest, [h] + hunks, k, oldPos)
  {
    hide OldOf, NewOf, Texts, Script, NewSide, Patched, Start, End, Found, AllAre, Wanted;
    assert ([Change(edits)] + rest)[1..] == rest;
    FoundOrEmpty(base, edits, oldPos);
    var at, after := Landing(edits, oldPos), oldPos + |OldOf(edits)|;
    if k <= at && Clear(rest, End(h), after) {
      var added, later, next := Texts(NewOf(edits)), Patched(base, hunks, End(h)), Texts(NewOf(Script(rest)));
      WantedIs(base, rest, End(h), after);
      if Found(edits, oldPos) {
        SameFront(base[k..at] + added, later, next);
        assert base[after..after] + next == next;
      } else {
        EarlyLines(base, k, at, added, later, next);
      }
    }
  }

  lemma WantedIs(base: seq<string>, rest: seq<Segment>, k: nat, oldPos: nat)
    requires k <= oldPos <= |base|
    ensures Wanted(base, rest, k, oldPos) == base[k..oldPos] + Texts(NewOf(Script(rest)))
  {
  }

  /** The lines of a hunk that lands before line `at` instead of after it. */
  lemma EarlyLines(base: seq<string>, k: nat, at: nat, added: seq<string>, later: seq<string>, next: seq<string>)
    requires k <= at < |base| && |later| == |base[at..at + 1] + next|
    ensures |base[k..at] + added + later| == |base[k..at + 1] + added + next|
    ensures base[k..at] + added + later == base[k..at + 1] + added + next
            <==> AllAre(added, base[at]) && later == base[at..at + 1] + next
  {
    assert base[k..at + 1] == base[k..at] + [base[at]] && base[at..at + 1] == [base[at]];
    AcrossLine(base[k..at], added, later, base[at], next);
  }

  lemma SameFront(front: seq<string>, x: seq<string>, y: seq<string>)
    ensures front + x == front + y <==> x == y
  {
    assert (front + x)[|front|..] == x && (front + y)[|front|..] == y;
  }

  lemma RenderedNothing(base: seq<string>, k: nat, oldPos: nat, newPos: nat)
    requires Fits(base, [], k, oldPos) && k <= oldPos <= |base|
    ensures var hunks := Render([], oldPos, newPos);
            Answered(base, hunks) && ApplicableFrom(base, hunks, k) && LinesRight(base, [], hunks, k, oldPos)
    ensures Clear([], k, oldPos)
  {
    hide ApplicableFrom;
    EmptyApplicable(base, k);
    assert Slice(base, k, |base|) == base[k..oldPos];
  }

  /** Hunks that the base answers fail only by overlapping. */
  lemma {:induction false} OnlyOverlap(base: seq<string>, hunks: seq<Hunk>, p: Progress)
    requires Answered(base, hunks)
    ensures ApplyHunks(base, hunks, p).Ok? || ApplyHunks(base, hunks, p) == Err(Overlap)
  {
    hide ValidLines, Matches, OldSide, NewSide, ApplyLines, Slice, Start, Ends;
    if hunks != [] && p.oldIndex <= Start(hunks[0]) {
      assert hunks[0] in hunks;
      var landed := Progress(p.output + Slice(base, p.oldIndex, Start(hunks[0])), Start(hunks[0]), p.newEnds);
      LinesOutcome(base, hunks[0].lines, landed, NO_KIND);
      OnlyOverlap(base, hunks[1..], ApplyLines(base, hunks[0].lines, landed, NO_KIND).value);
    }
  }

  /** Git's positions are understood where every hunk is found at its place. */
  lemma {:induction false} PlacedIsRight(base: seq<string>, segments: seq<Segment>, k: nat, oldPos: nat)
    requires Placed(segments, oldPos)
    ensures Clear(segments, k, oldPos) && Unmoved(base, segments, oldPos)
  {
    hide OldOf, NewOf, Texts;
    if segments != [] {
      match segments[0] {
        case Gap(lines) => PlacedIsRight(base, segments[1..], k, oldPos + |lines|);
        case Change(edits) =>
          PlacedIsRight(base, segments[1..], oldPos + |OldOf(edits)|, oldPos + |OldOf(edits)|);
      }
    }
  }

  // The final newline.

  /** The terminator flag after all the hunks. */
  function FinalEnds(hunks: seq<Hunk>, newEnds: bool): bool {
    if hunks == [] then newEnds else FinalEnds(hunks[1..], Ends(hunks[0].lines, newEnds, NO_KIND))
  }

  lemma {:induction false} AppliedEnds(base: seq<string>, hunks: seq<Hunk>, p: Progress)
    ensures ApplyHunks(base, hunks, p).Ok? ==> ApplyHunks(base, hunks, p).value.newEnds == FinalEnds(hunks, p.newEnds)
  {
    hide Matches, ValidLines, OldSide, NewSide, ApplyLines, Slice, Ends;
    if hunks != [] && p.oldIndex <= Start(hunks[0]) {
      var landed := Progress(p.output + Slice(base, p.oldIndex, Start(hunks[0])), Start(hunks[0]), p.newEnds);
      LinesOutcome(base, hunks[0].lines, landed, NO_KIND);
      var r := ApplyLines(base, hunks[0].lines, landed, NO_KIND);
      if r.Ok? { AppliedEnds(base, hunks[1..], r.value); }
    }
  }

  /** `newEnds` is right for the rest of the script, which is to end with the flag `want`. */
  ghost predicate Good(script: seq<Edit>, newEnds: bool, want: bool) {
    && Proper(OldOf(script)) && Proper(NewOf(script))
    && if Misordered(script) then Unended(NewOf(script)) && Unended(OldOf(script)) && !newEnds && want
       else if Unended(NewOf(script)) then !want && (Unended(OldOf(script)) ==> !newEnds)
       else if Unended(OldOf(script)) then !newEnds && want
       else newEnds == want
  }

  /** The flag after one edit of a hunk. */
  function EditEnds(e: Edit, newEnds: bool): bool { if e.line.terminated then newEnds else e.Del? }

  lemma {:induction false} DroppedEnd(script: seq<Edit>)
    requires NewOf(script) == [] && Unended(OldOf(script))
    ensures DropsEnd(script)
  {
    if script != [] {
      assert script[0].Del?;
      assert script[0] in script;
      if OldOf(script[1..]) != [] {
        DroppedEnd(script[1..]);
        var e :| e in script[1..] && e.Del? && !e.line.terminated;
        assert e in script;
      }
    }
  }

  lemma {:induction false} DropIsOld(script: seq<Edit>)
    requires DropsEnd(script) && Proper(OldOf(script))
    ensures Unended(OldOf(script))
  {
    if script[0].Ins? {
      assert OldOf(script) == OldOf(script[1..]);
      DropIsOld(script[1..]);
    } else {
      ProperTail(OldOf(script), OldOf(script[1..]), script[0].line);
      if !(script[0].Del? && !script[0].line.terminated) { DropIsOld(script[1..]); }
    }
  }

  /** An unterminated line of a side is its last. */
  lemma SideStep(script: seq<Edit>)
    requires script != [] && Proper(OldOf(script)) && Proper(NewOf(script))
    ensures var e, rest := script[0], script[1..];
            && Proper(OldOf(rest)) && Proper(NewOf(rest))
            && (if e.Ins? then OldOf(script) == OldOf(rest)
                else (!e.line.terminated ==> OldOf(rest) == [] && Unended(OldOf(script)))
                     && (e.line.terminated ==> (Unended(OldOf(script)) <==> Unended(OldOf(rest)))))
            && (if e.Del? then NewOf(script) == NewOf(rest)
                else (!e.line.terminated ==> NewOf(rest) == [] && Unended(NewOf(script)))
                     && (e.line.terminated ==> (Unended(NewOf(script)) <==> Unended(NewOf(rest)))))
  {
    hide Proper;
    var e, rest := script[0], script[1..];
    if e.Ins? { assert OldOf(script) == OldOf(rest); } else { ProperTail(OldOf(script), OldOf(rest), e.line); }
    if e.Del? { assert NewOf(script) == NewOf(rest); } else { ProperTail(NewOf(script), NewOf(rest), e.line); }
  }

  lemma {:induction false} MisorderedEnds(script: seq<Edit>)
    requires Misordered(script) && Proper(OldOf(script)) && Proper(NewOf(script))
    ensures Unended(OldOf(script)) && Unended(NewOf(script))
  {
    hide Proper, Unended, DropsEnd;
    SideStep(script);
    var rest := script[1..];
    if Misordered(rest) { MisorderedEnds(rest); EmptyEnded(); } else { DropIsOld(rest); }
  }

  lemma EmptyEnded()
    ensures !Unended([])
  {
  }

  /** One edit keeps the flag right, whether it is applied in a hunk or left in a gap. */
  lemma GoodStep(script: seq<Edit>, newEnds: bool, want: bool)
    requires script != [] && Good(script, newEnds, want)
    ensures Good(script[1..], EditEnds(script[0], newEnds), want)
    ensures script[0].Keep? ==> EditEnds(script[0], newEnds) == newEnds
  {
    hide Proper, Unended, DropsEnd;
    SideStep(script);
    var e, rest := script[0], script[1..];
    EmptyEnded();
    if Misordered(rest) {
      MisorderedEnds(rest);
    } else if Misordered(script) {
      DropIsOld(rest);
    } else if e.Ins? && !e.line.terminated && Unended(OldOf(rest)) {
      DroppedEnd(rest);
    }
  }

  lemma EditLineEnds(e: Edit, rest: seq<string>, newEnds: bool, previous: char)
    ensures var kind := EditLine(e)[0][0];
            Ends(EditLine(e) + rest, newEnds, previous) == Ends(rest, EditEnds(e, newEnds), kind)
  {
    var lines := EditLine(e) + rest;
    var first := EditLine(e)[0];
    assert NO_NEWLINE[0] == '\\';
    assert lines[0] == first && first != NO_NEWLINE;
    if e.line.terminated {
      assert lines[1..] == rest;
    } else {
      assert lines[1..] == [NO_NEWLINE] + rest && lines[1..][1..] == rest;
      assert Ends(lines, newEnds, previous) == Ends(lines[1..], newEnds, first[0]);
    }
  }

  lemma {:induction false} GoodEdits(edits: seq<Edit>, rest: seq<Edit>, newEnds: bool, want: bool, previous: char)
    requires Good(edits + rest, newEnds, want)
    ensures Good(rest, Ends(EditLines(edits), newEnds, previous), want)
  {
    hide Good, EditEnds;
    if edits == [] {
      assert edits + rest == rest;
    } else {
      var script := edits + rest;
      assert script[0] == edits[0] && script[1..] == edits[1..] + rest;
      GoodStep(script, newEnds, want);
      EditLineEnds(edits[0], EditLines(edits[1..]), newEnds, previous);
      GoodEdits(edits[1..], rest, EditEnds(edits[0], newEnds), want, EditLine(edits[0])[0][0]);
    }
  }

  lemma {:induction false} GoodGap(lines: seq<Line>, rest: seq<Edit>, newEnds: bool, want: bool)
    requires Good(Keeps(lines) + rest, newEnds, want)
    ensures Good(rest, newEnds, want)
  {
    hide Good, EditEnds;
    var script := Keeps(lines) + rest;
    if lines == [] {
      assert script == rest;
    } else {
      assert script[0] == Keep(lines[0]) && script[1..] == Keeps(lines[1..]) + rest;
      GoodStep(script, newEnds, want);
      GoodGap(lines[1..], rest, newEnds, want);
    }
  }

  lemma {:induction false} RenderedEnds(segments: seq<Segment>, oldPos: nat, newPos: nat, newEnds: bool, want: bool)
    requires Good(Script(segments), newEnds, want)
    ensures FinalEnds(Render(segments, oldPos, newPos), newEnds) == want
  {
    hide Good, Ends;
    if segments == [] {
      GoodEnd(newEnds, want);
    } else {
      var rest := segments[1..];
      match segments[0] {
        case Gap(lines) =>
          GoodGap(lines, Script(rest), newEnds, want);
          RenderedEnds(rest, oldPos + |lines|, newPos + |lines|, newEnds, want);
        case Change(edits) =>
          GoodEdits(edits, Script(rest), newEnds, want, NO_KIND);
          var h := HunkOf(edits, oldPos, newPos);
          var hunks := Render(rest, oldPos + |OldOf(edits)|, newPos + |NewOf(edits)|);
          assert ([h] + hunks)[1..] == hunks;
          RenderedEnds(rest, oldPos + |OldOf(edits)|, newPos + |NewOf(edits)|, Ends(h.lines, newEnds, NO_KIND), want);
      }
    }
  }

  lemma GoodEnd(newEnds: bool, want: bool)
    requires Good([], newEnds, want)
    ensures newEnds == want
  {
  }

  // The theorem.

  /** The segments are a script from `b` to `c`. */
  ghost predicate ScriptBetween(segments: seq<Segment>, b: string, c: string) {
    OldOf(Script(segments)) == LinesOf(b) && NewOf(Script(segments)) == LinesOf(c)
  }

  lemma BaseTerminated(content: string)
    ensures var lines := BaseLines(content);
            (content == "" ==> lines.texts == [] && !lines.terminated) && (lines.texts == [] ==> content == "")
  {
    hide Split;
    if content != "" {
      var parts := Split(content, '\n');
      JoinSplit(content, '\n');
      EmptyJoin();
      assert |parts| == 1 && parts[0] == "" ==> parts == [""];
    }
  }

  lemma GoodStart(segments: seq<Segment>, b: string, c: string)
    requires ScriptBetween(segments, b, c)
    ensures var script := Script(segments);
            var want := Misordered(script) || !Unended(LinesOf(c));
            Good(script, Initial(b).newEnds, want)
  {
    hide Proper, Unended, Misordered, BaseLines;
    var script := Script(segments);
    TaggedProper(BaseLines(b).texts, BaseLines(b).terminated);
    TaggedProper(BaseLines(c).texts, BaseLines(c).terminated);
    BaseTerminated(b);
    if Misordered(script) { MisorderedEnds(script); }
  }

  /** The text of a file is its lines joined, with a final newline when the last one is terminated. */
  lemma TextOfLines(c: string)
    ensures c == Join(Texts(LinesOf(c)), "\n") + (if LinesOf(c) != [] && !Unended(LinesOf(c)) then "\n" else "")
  {
    hide Join, BaseLines, Unended;
    TaggedTexts(BaseLines(c).texts, BaseLines(c).terminated);
    TaggedProper(BaseLines(c).texts, BaseLines(c).terminated);
    TextOfBaseLines(c);
  }

  /** What applying the hunks of a script writes. */
  lemma RenderedText(segments: seq<Segment>, b: string, c: string)
    requires ScriptBetween(segments, b, c)
    ensures var base, hunks := BaseLines(b).texts, Render(segments, 0, 0);
            && (Clear(segments, 0, 0) ==>
                  && Apply(b, hunks)
                     == Ok(TextOf(Lines(Patched(base, hunks, 0), Misordered(Script(segments)) || !Unended(LinesOf(c)))))
                  && |Patched(base, hunks, 0)| == |Texts(LinesOf(c))|
                  && (Patched(base, hunks, 0) == Texts(LinesOf(c)) <==> Unmoved(base, segments, 0)))
            && (!Clear(segments, 0, 0) ==> Apply(b, hunks) == Err(Overlap))
  {
    hide Misordered, Good, Join, Unended, BaseLines, Patched, Applicable, Render, Clear, Unmoved, Texts, Answered;
    var base, hunks, script := BaseLines(b).texts, Render(segments, 0, 0), Script(segments);
    TaggedTexts(base, BaseLines(b).terminated);
    assert base[0..] == base && base[0..0] == [];
    RenderedLines(base, segments, 0, 0, 0);
    assert [] + Texts(LinesOf(c)) == Texts(LinesOf(c));
    ApplySucceedsIff(b, hunks);
    if Clear(segments, 0, 0) {
      AppliedEnds(base, hunks, Initial(b));
      GoodStart(segments, b, c);
      RenderedEnds(segments, 0, 0, Initial(b).newEnds, Misordered(script) || !Unended(LinesOf(c)));
    } else {
      OnlyOverlap(base, hunks, Initial(b));
    }
  }

  /**
   * Applying the hunks of a script from `b` to `c`, each with a non-empty old side or at the start of
   * the file, gives exactly `c`, unless the script puts an unterminated addition before an
   * unterminated removal; then a newline too many is written.
   */
  lemma ApplyRendered(segments: seq<Segment>, b: string, c: string)
    requires ScriptBetween(segments, b, c) && Placed(segments, 0)
    ensures Apply(b, Render(segments, 0, 0)) == Ok(if Misordered(Script(segments)) then c + "\n" else c)
  {
    hide Misordered, Good, Join, Unended, BaseLines, Patched, Render, Placed, Clear, Unmoved;
    var script := Script(segments);
    PlacedIsRight(BaseLines(b).texts, segments, 0, 0);
    RenderedText(segments, b, c);
    TextOfLines(c);
    if Misordered(script) {
      GoodStart(segments, b, c);
      GoodMisordered(script, Initial(b).newEnds);
    }
    Joined(LinesOf(c), c, Misordered(script));
  }

  /**
   * Whatever hunks a script from `b` to `c` is cut into: they apply if and only if no hunk that lands
   * a line early (an empty old side inside the file) touches the hunk before it, and overlap
   * otherwise; they give exactly `c` if and only if, moreover, every line such a hunk adds equals the
   * base line before its place, and no unterminated addition comes before an unterminated removal.
   */
  lemma ApplyRenderedIff(segments: seq<Segment>, b: string, c: string)
    requires ScriptBetween(segments, b, c)
    ensures var r := Apply(b, Render(segments, 0, 0));
            && (if Clear(segments, 0, 0) then r.Ok? else r == Err(Overlap))
            && (r == Ok(c) <==>
                  Clear(segments, 0, 0) && Unmoved(BaseLines(b).texts, segments, 0) && !Misordered(Script(segments)))
  {
    hide Misordered, Good, Join, Unended, BaseLines, Patched, Render, Clear, Unmoved, TextOf;
    var base, hunks, script := BaseLines(b).texts, Render(segments, 0, 0), Script(segments);
    RenderedText(segments, b, c);
    if Clear(segments, 0, 0) {
      if Misordered(script) {
        GoodStart(segments, b, c);
        GoodMisordered(script, Initial(b).newEnds);
        TextsAppend(LinesOf(c), []);
      }
      TextIsWritten(c);
      LinesUnbroken(c);
      PatchedUnbroken(segments, b, c);
      WrittenIff(Patched(base, hunks, 0), Misordered(script) || !Unended(LinesOf(c)),
          Texts(LinesOf(c)), !Unended(LinesOf(c)));
    }
  }

  lemma TextIsWritten(c: string)
    ensures c == TextOf(Lines(Texts(LinesOf(c)), !Unended(LinesOf(c))))
  {
    hide Join, BaseLines, Unended;
    TextOfLines(c);
    TextsAppend(LinesOf(c), []);
  }

  predicate Unbroken(texts: seq<string>) { forall t <- texts :: '\n' !in t }

  lemma LinesUnbroken(c: string)
    ensures Unbroken(BaseLines(c).texts) && Texts(LinesOf(c)) == BaseLines(c).texts
  {
    TaggedTexts(BaseLines(c).texts, BaseLines(c).terminated);
  }

  /** Lines of the base and lines of hunks are all the code puts together. */
  lemma {:induction false} PatchedFrom(base: seq<string>, hunks: seq<Hunk>, k: nat)
    requires Unbroken(base) && forall h <- hunks :: Unbroken(NewSide(h.lines))
    ensures Unbroken(Patched(base, hunks, k))
  {
    hide NewSide;
    if hunks != [] {
      assert hunks[0] in hunks;
      PatchedFrom(base, hunks[1..], End(hunks[0]));
    }
  }

  lemma {:induction false} RenderedUnbroken(segments: seq<Segment>, oldPos: nat, newPos: nat)
    requires Unbroken(Texts(NewOf(Script(segments))))
    ensures forall h <- Render(segments, oldPos, newPos) :: Unbroken(NewSide(h.lines))
  {
    hide OldOf, NewOf, Texts, NewSide, Script, Unbroken, HunkOf;
    if segments != [] {
      var rest := segments[1..];
      assert segments == [segments[0]] + rest;
      ScriptCons(segments[0], rest);
      match segments[0] {
        case Gap(lines) =>
          UnbrokenParts(Texts(NewOf(Keeps(lines))), Texts(NewOf(Script(rest))));
          RenderedUnbroken(rest, oldPos + |lines|, newPos + |lines|);
        case Change(edits) =>
          UnbrokenParts(Texts(NewOf(edits)), Texts(NewOf(Script(rest))));
          HunkPlace(edits, oldPos, newPos);
          RenderedUnbroken(rest, oldPos + |OldOf(edits)|, newPos + |NewOf(edits)|);
      }
    }
  }

  lemma UnbrokenParts(a: seq<string>, b: seq<string>)
    requires Unbroken(a + b)
    ensures Unbroken(a) && Unbroken(b)
  {
    forall t | t in a ensures '\n' !in t { assert t in a + b; }
    forall t | t in b ensures '\n' !in t { assert t in a + b; }
  }

  lemma PatchedUnbroken(segments: seq<Segment>, b: string, c: string)
    requires ScriptBetween(segments, b, c)
    ensures Unbroken(Patched(BaseLines(b).texts, Render(segments, 0, 0), 0))
  {
    hide *;
    SidesBetween(segments, b, c);
    LinesUnbroken(b);
    LinesUnbroken(c);
    RenderedUnbroken(segments, 0, 0);
    PatchedFrom(BaseLines(b).texts, Render(segments, 0, 0), 0);
  }

  lemma SidesBetween(segments: seq<Segment>, b: string, c: string)
    requires ScriptBetween(segments, b, c)
    ensures NewOf(Script(segments)) == LinesOf(c)
  {
  }

  /** As many unbroken lines are written alike exactly when they and their ends are the same. */
  lemma WrittenIff(x: seq<string>, f: bool, y: seq<string>, g: bool)
    requires |x| == |y| && Unbroken(x) && Unbroken(y)
    ensures TextOf(Lines(x, f)) == TextOf(Lines(y, g)) <==> x == y && (f == g || x == [])
  {
    hide Join;
    if x != [] {
      WrittenParts(x, f);
      WrittenParts(y, g);
      var p, q := if f then x + [""] else x, if g then y + [""] else y;
      if p == q {
        assert |p| == |q|;
        assert x == p[..|x|] && y == q[..|x|];
      }
    }
  }

  lemma WrittenParts(x: seq<string>, f: bool)
    requires x != [] && Unbroken(x)
    ensures Split(TextOf(Lines(x, f)), '\n') == if f then x + [""] else x
  {
    hide Join, Split;
    if f {
      JoinAppend(x, [""], "\n");
      EmptyJoin();
      assert Join(x, "\n") + "\n" + "" == Join(x, "\n") + "\n";
      SplitJoin(x + [""], '\n');
    } else {
      SplitJoin(x, '\n');
      assert Join(x, "\n") + "" == Join(x, "\n");
    }
  }

  lemma Joined(lines: seq<Line>, c: string, extra: bool)
    requires c == Join(Texts(lines), "\n") + (if lines != [] && !Unended(lines) then "\n" else "")
    requires extra ==> Unended(lines)
    ensures Join(Texts(lines), "\n") + (if (extra || !Unended(lines)) && Texts(lines) != [] then "\n" else "")
         == (if extra then c + "\n" else c)
  {
    hide Join;
    TextsAppend(lines, []);
  }

  lemma GoodMisordered(script: seq<Edit>, newEnds: bool)
    requires Misordered(script) && Good(script, newEnds, true)
    ensures Unended(NewOf(script)) && NewOf(script) != []
  {
  }

  lemma {:induction false} RemovalsFirstIsOrdered(script: seq<Edit>)
    requires RemovalsFirst(script) && Proper(NewOf(script))
    ensures !Misordered(script)
  {
    hide DropsEnd;
    if script != [] {
      var e, rest := script[0], script[1..];
      RemovalsFirstTail(script);
      if e.Del? {
        assert NewOf(script) == NewOf(rest);
      } else {
        ProperTail(NewOf(script), NewOf(rest), e.line);
        if e.Ins? && !e.line.terminated { OnlyAdditionsEnd(rest); }
      }
      RemovalsFirstIsOrdered(rest);
    }
  }

  lemma RemovalsFirstTail(script: seq<Edit>)
    requires script != [] && RemovalsFirst(script)
    ensures RemovalsFirst(script[1..]) && (script[0].Ins? && script[1..] != [] ==> !script[1..][0].Del?)
  {
    var rest := script[1..];
    forall i | 0 <= i < |rest| - 1 && rest[i].Ins? ensures !rest[i + 1].Del? { assert script[i + 1].Ins?; }
    if rest != [] && script[0].Ins? { assert !script[0 + 1].Del?; }
  }

  lemma OnlyAdditionsEnd(rest: seq<Edit>)
    requires NewOf(rest) == [] && (rest != [] ==> !rest[0].Del?)
    ensures !DropsEnd(rest)
  {
    assert rest == [];
  }

  /**
   * With removals before additions, as git writes them, the result is exactly the target text if and
   * only if no hunk that lands a line early touches the one before it or moves its lines. There is no
   * such hunk where each has a non-empty old side or starts the file.
   */
  lemma DiffThenApply(segments: seq<Segment>, b: string, c: string)
    requires ScriptBetween(segments, b, c) && RemovalsFirst(Script(segments))
    ensures Apply(b, Render(segments, 0, 0)) == Ok(c)
            <==> Clear(segments, 0, 0) && Unmoved(BaseLines(b).texts, segments, 0)
    ensures Placed(segments, 0) ==> Apply(b, Render(segments, 0, 0)) == Ok(c)
  {
    hide Misordered, Proper, BaseLines, Apply, Render, Clear, Unmoved, Placed;
    TaggedProper(BaseLines(c).texts, BaseLines(c).terminated);
    RemovalsFirstIsOrdered(Script(segments));
    ApplyRenderedIff(segments, b, c);
    if Placed(segments, 0) { PlacedIsRight(BaseLines(b).texts, segments, 0, 0); }
  }

  // Undoing a patch, as texts.

  /** The text written for the lines tells them all: an unterminated empty last line would be lost. */
  predicate Tells(lines: seq<string>, ended: bool) { lines != [] ==> ended || lines[|lines| - 1] != "" }

  /** Unbroken lines are read back from the text written for them, but for an unterminated empty last line. */
  lemma WrittenReadsBack(lines: seq<string>, ended: bool)
    requires Unbroken(lines)
    ensures var read := BaseLines(TextOf(Lines(lines, ended)));
            && (Tells(lines, ended) ==> read.texts == lines)
            && (Tells(lines, ended) && lines != [] ==> read.terminated == ended && TextOf(Lines(lines, ended)) != "")
            && (!Tells(lines, ended) ==> lines != [] && read.texts == lines[..|lines| - 1])
  {
    hide Join, Split;
    if lines == [] {
      EmptyJoin();
    } else {
      WrittenParts(lines, ended);
      assert ended ==> (lines + [""])[..|lines|] == lines;
      EmptySplit();
      if TextOf(Lines(lines, ended)) == "" { assert lines == [""]; }
    }
  }

  lemma EmptySplit()
    ensures Split("", '\n') == [""]
  {
  }

  /** The sign-swapped hunks at the landing positions. */
  function Undo(hunks: seq<Hunk>): seq<Hunk>
    requires Ordered(hunks)
  {
    Inverted(hunks, 0, 0)
  }

  /**
   * Undoing an applied patch gives back the very text if and only if the patched text tells all its lines
   * and the markers of the sign-swapped hunks lead back to the terminator of the base. Where it tells
   * them, all the base lines come back.
   */
  lemma UndoRestoresTextIff(b: string, hunks: seq<Hunk>)
    requires Apply(b, hunks).Ok? && InRange(BaseLines(b).texts, hunks)
    requires forall h <- hunks :: Unbroken(NewSide(h.lines))
    ensures Applicable(BaseLines(b).texts, hunks)
    ensures var after := Apply(b, hunks).value;
            var ended := FinalEnds(Undo(hunks), Initial(after).newEnds);
            var tells := Tells(Patched(BaseLines(b).texts, hunks, 0), FinalEnds(hunks, Initial(b).newEnds));
            && (tells ==> Apply(after, Undo(hunks)) == Ok(TextOf(Lines(BaseLines(b).texts, ended))))
            && (Apply(after, Undo(hunks)) == Ok(b) <==> tells && (b == "" || ended == BaseLines(b).terminated))
  {
    hide BaseLines, Patched, FinalEnds, Applicable, InRange, Inverted, ApplyHunks, TextOf, Unbroken, NewSide, Tells;
    var base := BaseLines(b).texts;
    ApplySucceedsIff(b, hunks);
    ApplicableOrdered(base, hunks);
    SwappedPatchRestores(base, hunks);
    LinesUnbroken(b);
    PatchedFrom(base, hunks, 0);
    AppliedText(b, hunks);
    var lines, e := Patched(base, hunks, 0), FinalEnds(hunks, Initial(b).newEnds);
    WrittenReadsBack(lines, e);
    var after := Apply(b, hunks).value;
    if Tells(lines, e) {
      ApplySucceedsIff(after, Undo(hunks));
      AppliedText(after, Undo(hunks));
      WrittenAgain(b);
      WrittenIff(base, FinalEnds(Undo(hunks), Initial(after).newEnds), base, BaseLines(b).terminated);
      BaseTerminated(b);
    } else {
      NeverRestored(b, hunks, lines, after);
    }
  }

  /** With a line lost, the undone text is a line short. */
  lemma NeverRestored(b: string, hunks: seq<Hunk>, lines: seq<string>, after: string)
    requires Applicable(BaseLines(b).texts, hunks) && Ordered(hunks) && InRange(BaseLines(b).texts, hunks)
    requires Applicable(lines, Undo(hunks)) && Patched(lines, Undo(hunks), 0) == BaseLines(b).texts
    requires Unbroken(lines) && lines != [] && BaseLines(after).texts == lines[..|lines| - 1]
    ensures Apply(after, Undo(hunks)) != Ok(b)
  {
    hide BaseLines, Patched, FinalEnds, Applicable, InRange, Ordered, Inverted, ApplyHunks, TextOf, NewSide, Apply,
      ApplicableFrom;
    if Apply(after, Undo(hunks)).Ok? {
      ApplyLineCount(after, Undo(hunks));
      AllApplicable(lines, Undo(hunks));
      PatchedCount(lines, Undo(hunks), 0);
      assert Slice(lines, 0, |lines|) == lines;
      var short := Patched(BaseLines(after).texts, Undo(hunks), 0);
      LinesUnbroken(after);
      LinesUnbroken(b);
      InvertedUnbroken(BaseLines(b).texts, hunks, 0, 0);
      PatchedFrom(BaseLines(after).texts, Undo(hunks), 0);
      AppliedText(after, Undo(hunks));
      WrittenReadsBack(short, FinalEnds(Undo(hunks), Initial(after).newEnds));
      assert |short| == |BaseLines(b).texts| - 1;
    }
  }

  lemma AllApplicable(base: seq<string>, hunks: seq<Hunk>)
    requires Applicable(base, hunks)
    ensures ApplicableFrom(base, hunks, 0)
  {
  }

  /** Sign-swapped hunks add only lines of the base. */
  lemma {:induction false} InvertedUnbroken(base: seq<string>, hunks: seq<Hunk>, k: nat, pos: nat)
    requires Ordered(hunks) && (hunks != [] ==> k <= Start(hunks[0]))
    requires Applicable(base, hunks) && Unbroken(base)
    ensures forall g <- Inverted(hunks, k, pos) :: Unbroken(NewSide(g.lines))
  {
    hide NewSide, OldSide, SwapLines, ValidLines, Unbroken, Ordered, Start, Matches, Applicable, ApplicableFrom;
    if hunks != [] {
      var h := hunks[0];
      FirstApplicable(base, hunks);
      InvertedCons(hunks, k, pos);
      SwapSides(h.lines);
      MatchedUnbroken(base, Start(h), OldSide(h.lines));
      InvertedUnbroken(base, hunks[1..], End(h), pos + (Start(h) - k) + |NewSide(h.lines)|);
    }
  }

  lemma FirstApplicable(base: seq<string>, hunks: seq<Hunk>)
    requires Applicable(base, hunks) && hunks != []
    ensures var h := hunks[0];
            ValidLines(h.lines) && Matches(base, Start(h), OldSide(h.lines)) && Applicable(base, hunks[1..])
  {
    hide ValidLines, Matches, OldSide, Start, Ordered;
    OrderedCons(hunks);
  }

  lemma MatchedUnbroken(base: seq<string>, k: nat, side: seq<string>)
    requires Matches(base, k, side) && Unbroken(base)
    ensures Unbroken(side)
  {
    forall t | t in side ensures '\n' !in t { assert t in base[k..k + |side|]; }
  }

  // Undoing a rendered script.

  /** Unterminated addition. */
  predicate AddsEnd(script: seq<Edit>) { exists e <- script :: e.Ins? && !e.line.terminated }

  function SwapEdit(e: Edit): Edit { match e case Keep(_) => e case Del(line) => Ins(line) case Ins(line) => Del(line) }

  function SwapEdits(script: seq<Edit>): seq<Edit> {
    if script == [] then [] else [SwapEdit(script[0])] + SwapEdits(script[1..])
  }

  /** The script from the new lines back to the old ones, cut alike. */
  function SwapSegments(segments: seq<Segment>): seq<Segment> {
    if segments == [] then []
    else
      [match segments[0] case Gap(_) => segments[0] case Change(edits) => Change(SwapEdits(edits))]
      + SwapSegments(segments[1..])
  }

  lemma {:induction false} SwapEditsSides(script: seq<Edit>)
    ensures OldOf(SwapEdits(script)) == NewOf(script) && NewOf(SwapEdits(script)) == OldOf(script)
    ensures DropsEnd(SwapEdits(script)) <==> AddsEnd(script)
  {
    if script != [] {
      SwapEditsSides(script[1..]);
      assert SwapEdits(script)[1..] == SwapEdits(script[1..]);
      SwapEnds(script);
    }
  }

  lemma SwapEnds(script: seq<Edit>)
    requires script != [] && (DropsEnd(SwapEdits(script[1..])) <==> AddsEnd(script[1..]))
    ensures DropsEnd(SwapEdits(script)) <==> AddsEnd(script)
  {
    var e, rest := script[0], script[1..];
    assert script == [e] + rest;
    assert SwapEdits(script) == [SwapEdit(e)] + SwapEdits(rest);
    assert AddsEnd(script) <==> (e.Ins? && !e.line.terminated) || AddsEnd(rest);
    assert DropsEnd(SwapEdits(script)) <==> (SwapEdit(e).Del? && !e.line.terminated) || DropsEnd(SwapEdits(rest));
  }

  lemma {:induction false} SwapEditsAppend(a: seq<Edit>, b: seq<Edit>)
    ensures SwapEdits(a + b) == SwapEdits(a) + SwapEdits(b)
  {
    if a == [] {
      assert a + b == b;
    } else {
      assert (a + b)[1..] == a[1..] + b;
      SwapEditsAppend(a[1..], b);
    }
  }

  lemma {:induction false} SwapKeeps(lines: seq<Line>)
    ensures SwapEdits(Keeps(lines)) == Keeps(lines)
  {
    if lines != [] {
      assert Keeps(lines)[1..] == Keeps(lines[1..]);
      SwapKeeps(lines[1..]);
    }
  }

  lemma {:induction false} SwapScript(segments: seq<Segment>)
    ensures Script(SwapSegments(segments)) == SwapEdits(Script(segments))
  {
    hide SwapEdits, Keeps;
    if segments == [] {
      NothingSwapped();
    } else {
      var rest := segments[1..];
      SwapScript(rest);
      assert SwapSegments(segments)[1..] == SwapSegments(rest);
      match segments[0] {
        case Gap(lines) =>
          SwapKeeps(lines);
          SwapEditsAppend(Keeps(lines), Script(rest));
        case Change(edits) => SwapEditsAppend(edits, Script(rest));
      }
    }
  }

  lemma NothingSwapped()
    ensures SwapEdits([]) == []
  {
  }

  lemma {:induction false} SwapMisordered(script: seq<Edit>)
    requires !Misordered(script)
    ensures Misordered(SwapEdits(script)) <==> DropsEnd(script) && AddsEnd(script)
  {
    hide DropsEnd, AddsEnd;
    if script == [] {
      EmptyEnds();
    } else {
      var e, rest := script[0], script[1..];
      SwapMisordered(rest);
      assert SwapEdits(script)[1..] == SwapEdits(rest);
      SwapEditsSides(rest);
      EndsCons(script);
    }
  }

  lemma EmptyEnds()
    ensures !DropsEnd([]) && !AddsEnd([])
  {
  }

  lemma EndsCons(script: seq<Edit>)
    requires script != []
    ensures DropsEnd(script) <==> (script[0].Del? && !script[0].line.terminated) || DropsEnd(script[1..])
    ensures AddsEnd(script) <==> (script[0].Ins? && !script[0].line.terminated) || AddsEnd(script[1..])
  {
    assert script == [script[0]] + script[1..];
  }

  lemma SwapEditLine(e: Edit)
    ensures SwapLines(EditLine(e)) == EditLine(SwapEdit(e))
  {
    var line := EditLine(e)[0];
    assert ContentLine(line) && line[1..] == e.line.text by { assert line[0] != NO_NEWLINE[0]; }
    assert EditLine(e)[1..] == if e.line.terminated then [] else [NO_NEWLINE];
    assert SwapLines([NO_NEWLINE]) == [NO_NEWLINE] && SwapLines([]) == [];
    assert SwapLine(line) == EditLine(SwapEdit(e))[0];
  }

  lemma {:induction false} SwapLinesAppend(a: seq<string>, b: seq<string>)
    ensures SwapLines(a + b) == SwapLines(a) + SwapLines(b)
  {
    if a == [] {
      assert a + b == b;
    } else {
      assert (a + b)[1..] == a[1..] + b;
      SwapLinesAppend(a[1..], b);
    }
  }

  lemma {:induction false} SwapEditLines(edits: seq<Edit>)
    ensures SwapLines(EditLines(edits)) == EditLines(SwapEdits(edits))
  {
    hide EditLine, SwapLine, SwapEdit;
    if edits != [] {
      SwapEditLines(edits[1..]);
      SwapEditLine(edits[0]);
      SwapLinesAppend(EditLine(edits[0]), EditLines(edits[1..]));
      assert SwapEdits(edits)[1..] == SwapEdits(edits[1..]);
    }
  }

  /** The bodies of the sign-swapped hunks are those of the script back. */
  predicate SameBodies(a: seq<Hunk>, b: seq<Hunk>) { |a| == |b| && forall i | 0 <= i < |a| :: a[i].lines == b[i].lines }

  lemma {:induction false} BodiesEnd(a: seq<Hunk>, b: seq<Hunk>, newEnds: bool)
    requires SameBodies(a, b)
    ensures FinalEnds(a, newEnds) == FinalEnds(b, newEnds)
  {
    hide Ends;
    if a != [] {
      assert forall i | 0 <= i < |a[1..]| :: a[1..][i] == a[i + 1] && b[1..][i] == b[i + 1];
      BodiesEnd(a[1..], b[1..], Ends(a[0].lines, newEnds, NO_KIND));
    }
  }

  lemma BodiesCons(g: Hunk, a: seq<Hunk>, h: Hunk, b: seq<Hunk>)
    requires SameBodies(a, b) && g.lines == h.lines
    ensures SameBodies([g] + a, [h] + b)
  {
  }

  lemma {:induction false} InvertedBodies(segments: seq<Segment>, oldPos: nat, newPos: nat, k: nat, pos: nat)
    requires var hunks := Render(segments, oldPos, newPos); Ordered(hunks) && (hunks != [] ==> k <= Start(hunks[0]))
    ensures SameBodies(Inverted(Render(segments, oldPos, newPos), k, pos),
                       Render(SwapSegments(segments), newPos, oldPos))
  {
    hide Ordered, Start, End, SwapLines, SwapEdits, NewSide, EditLines, OldOf, NewOf, HunkOf, Inverted;
    InvertedNothing(k, pos);
    if segments != [] {
      var rest := segments[1..];
      assert segments == [segments[0]] + rest;
      assert SwapSegments(segments)[1..] == SwapSegments(rest);
      match segments[0] {
        case Gap(lines) => InvertedBodies(rest, oldPos + |lines|, newPos + |lines|, k, pos);
        case Change(edits) =>
          RenderChange(edits, rest, oldPos, newPos);
          SwapEditsSides(edits);
          var hunks, o, n := Render(segments, oldPos, newPos), |OldOf(edits)|, |NewOf(edits)|;
          RenderChange(SwapEdits(edits), SwapSegments(rest), newPos, oldPos);
          InvertedCons(hunks, k, pos);
          var end: nat := pos + (Start(hunks[0]) - k) + |NewSide(hunks[0].lines)|;
          InvertedBodies(rest, oldPos + o, newPos + n, End(hunks[0]), end);
          SwappedBody(edits, oldPos, newPos);
          BodiesCons(Inverted(hunks, k, pos)[0], Inverted(hunks[1..], End(hunks[0]), end),
                     HunkOf(SwapEdits(edits), newPos, oldPos), Render(SwapSegments(rest), newPos + n, oldPos + o));
      }
    }
  }

  lemma InvertedNothing(k: nat, pos: nat)
    ensures Inverted([], k, pos) == []
  {
  }

  lemma SwappedBody(edits: seq<Edit>, oldPos: nat, newPos: nat)
    ensures SwapLines(HunkOf(edits, oldPos, newPos).lines) == HunkOf(SwapEdits(edits), newPos, oldPos).lines
  {
    hide SwapLines, SwapEdits, EditLines;
    SwapEditLines(edits);
  }

  lemma {:induction false} RenderedInRange(base: seq<string>, segments: seq<Segment>, k: nat, oldPos: nat, newPos: nat)
    requires Fits(base, segments, k, oldPos)
    ensures InRange(base, Render(segments, oldPos, newPos))
  {
    hide *;
    if segments == [] {
      NothingInRange(base, oldPos, newPos);
    } else {
      var rest := segments[1..];
      assert segments == [segments[0]] + rest;
      match segments[0] {
        case Gap(lines) =>
          FitsGap(base, lines, rest, k, oldPos);
          RenderGap(lines, rest, oldPos, newPos);
          RenderedInRange(base, rest, k, oldPos + |lines|, newPos + |lines|);
        case Change(edits) =>
          FitsChange(base, edits, rest, k, oldPos);
          HunkPlace(edits, oldPos, newPos);
          RenderChange(edits, rest, oldPos, newPos);
          var at, after := Landing(edits, oldPos), oldPos + |OldOf(edits)|;
          RenderedInRange(base, rest, at + |OldOf(edits)|, after, newPos + |NewOf(edits)|);
          InRangeBoth(base, HunkOf(edits, oldPos, newPos), Render(rest, after, newPos + |NewOf(edits)|));
      }
    }
  }

  lemma NothingInRange(base: seq<string>, oldPos: nat, newPos: nat)
    ensures InRange(base, Render([], oldPos, newPos))
  {
  }

  lemma InRangeBoth(base: seq<string>, h: Hunk, rest: seq<Hunk>)
    requires Start(h) <= |base| && InRange(base, rest)
    ensures InRange(base, [h] + rest)
  {
  }

  /**
   * Applying the sign-swapped hunks of a script to the target gives the first text back, unless an
   * unterminated removal and an unterminated addition both occur; then a newline too many is written.
   */
  lemma UndoRendered(segments: seq<Segment>, b: string, c: string)
    requires ScriptBetween(segments, b, c) && RemovalsFirst(Script(segments))
    requires Clear(segments, 0, 0) && Unmoved(BaseLines(b).texts, segments, 0)
    ensures var hunks, script := Render(segments, 0, 0), Script(segments);
            Ordered(hunks) && Apply(c, Undo(hunks)) == Ok(if DropsEnd(script) && AddsEnd(script) then b + "\n" else b)
  {
    hide *;
    var base, hunks, script := BaseLines(b).texts, Render(segments, 0, 0), Script(segments);
    var back := SwapSegments(segments);
    UndoLines(segments, b, c);
    SwapBetween(segments, b, c);
    InvertedBodies(segments, 0, 0, 0, 0);
    UndoIs(hunks);
    BodiesEnd(Undo(hunks), Render(back, 0, 0), Initial(c).newEnds);
    BackEnds(back, c, b);
    AppliedText(c, Undo(hunks));
    BackText(b, Misordered(Script(back)));
    SwapScript(segments);
    ScriptOrdered(segments, b, c);
    SwapMisordered(script);
  }

  lemma UndoIs(hunks: seq<Hunk>)
    requires Ordered(hunks)
    ensures Undo(hunks) == Inverted(hunks, 0, 0)
  {
  }

  /** The lines of the base come back from the target's lines. */
  lemma UndoLines(segments: seq<Segment>, b: string, c: string)
    requires ScriptBetween(segments, b, c) && RemovalsFirst(Script(segments))
    requires Clear(segments, 0, 0) && Unmoved(BaseLines(b).texts, segments, 0)
    ensures var hunks := Render(segments, 0, 0);
            && Ordered(hunks) && (hunks != [] ==> 0 <= Start(hunks[0]))
            && Applicable(BaseLines(c).texts, Undo(hunks))
            && Patched(BaseLines(c).texts, Undo(hunks), 0) == BaseLines(b).texts
            && Apply(c, Undo(hunks)).Ok?
  {
    hide BaseLines, Patched, Applicable, Render, Clear, Unmoved, Apply, Fits, InRange, Inverted, Ordered, Texts;
    var base, hunks := BaseLines(b).texts, Render(segments, 0, 0);
    RenderedText(segments, b, c);
    ApplySucceedsIff(b, hunks);
    ApplicableOrdered(base, hunks);
    StartFits(segments, b, c);
    RenderedInRange(base, segments, 0, 0, 0);
    SwappedPatchRestores(base, hunks);
    LinesUnbroken(c);
    ApplySucceedsIff(c, Undo(hunks));
  }

  lemma StartFits(segments: seq<Segment>, b: string, c: string)
    requires ScriptBetween(segments, b, c)
    ensures Fits(BaseLines(b).texts, segments, 0, 0)
  {
    hide BaseLines, Script;
    TaggedTexts(BaseLines(b).texts, BaseLines(b).terminated);
  }

  lemma SwapBetween(segments: seq<Segment>, b: string, c: string)
    requires ScriptBetween(segments, b, c)
    ensures ScriptBetween(SwapSegments(segments), c, b)
  {
    SwapScript(segments);
    SwapEditsSides(Script(segments));
  }

  lemma ScriptOrdered(segments: seq<Segment>, b: string, c: string)
    requires ScriptBetween(segments, b, c) && RemovalsFirst(Script(segments))
    ensures !Misordered(Script(segments))
  {
    hide Misordered, Proper, BaseLines;
    TaggedProper(BaseLines(c).texts, BaseLines(c).terminated);
    RemovalsFirstIsOrdered(Script(segments));
  }

  /** The terminator after the script back. */
  lemma BackEnds(back: seq<Segment>, c: string, b: string)
    requires ScriptBetween(back, c, b)
    ensures FinalEnds(Render(back, 0, 0), Initial(c).newEnds) == (Misordered(Script(back)) || !Unended(LinesOf(b)))
    ensures Misordered(Script(back)) ==> Unended(LinesOf(b))
  {
    hide Misordered, Good, Unended, BaseLines, Render;
    GoodStart(back, c, b);
    RenderedEnds(back, 0, 0, Initial(c).newEnds, Misordered(Script(back)) || !Unended(LinesOf(b)));
    if Misordered(Script(back)) { GoodMisordered(Script(back), Initial(c).newEnds); }
  }

  /** The text of the base lines with that terminator. */
  lemma BackText(b: string, extra: bool)
    requires extra ==> Unended(LinesOf(b))
    ensures TextOf(Lines(BaseLines(b).texts, extra || !Unended(LinesOf(b)))) == if extra then b + "\n" else b
  {
    hide Unended, BaseLines, Join;
    TextOfLines(b);
    LinesUnbroken(b);
    Joined(LinesOf(b), b, extra);
  }

  lemma ApplicableOrdered(base: seq<string>, hunks: seq<Hunk>)
    ensures Applicable(base, hunks) ==> Ordered(hunks)
  {
  }

  lemma WrittenAgain(b: string)
    ensures b == TextOf(Lines(BaseLines(b).texts, BaseLines(b).terminated))
  {
    TextOfBaseLines(b);
  }

  lemma AppliedText(b: string, hunks: seq<Hunk>)
    requires Apply(b, hunks).Ok?
    ensures Apply(b, hunks).value
          == TextOf(Lines(Patched(BaseLines(b).texts, hunks, 0), FinalEnds(hunks, Initial(b).newEnds)))
  {
    hide BaseLines, Patched, Applicable, Join;
    ApplySucceedsIff(b, hunks);
    AppliedEnds(BaseLines(b).texts, hunks, Initial(b));
  }

  // There is a script between any two texts.

  function Dels(lines: seq<Line>): seq<Edit> { if lines == [] then [] else [Del(lines[0])] + Dels(lines[1..]) }
  function Inserts(lines: seq<Line>): seq<Edit> { if lines == [] then [] else [Ins(lines[0])] + Inserts(lines[1..]) }

  lemma {:induction false} DelsSides(lines: seq<Line>)
    ensures OldOf(Dels(lines)) == lines && NewOf(Dels(lines)) == [] && forall e <- Dels(lines) :: e.Del?
  {
    if lines != [] {
      assert Dels(lines)[1..] == Dels(lines[1..]);
      DelsSides(lines[1..]);
    }
  }

  lemma {:induction false} InsertsSides(lines: seq<Line>)
    ensures OldOf(Inserts(lines)) == [] && NewOf(Inserts(lines)) == lines && forall e <- Inserts(lines) :: e.Ins?
  {
    if lines != [] {
      assert Inserts(lines)[1..] == Inserts(lines[1..]);
      InsertsSides(lines[1..]);
    }
  }

  /** Dropping every old line and then adding every new one is such a script, for any two texts. */
  lemma WholesaleScript(b: string, c: string)
    ensures var segments := [Change(Dels(LinesOf(b)) + Inserts(LinesOf(c)))];
            ScriptBetween(segments, b, c) && Placed(segments, 0) && RemovalsFirst(Script(segments))
  {
    var dels, adds := Dels(LinesOf(b)), Inserts(LinesOf(c));
    DelsSides(LinesOf(b));
    InsertsSides(LinesOf(c));
    OldAppend(dels, adds);
    NewAppend(dels, adds);
    assert [Change(dels + adds)][1..] == [] && dels + adds + [] == dels + adds;
    var script := dels + adds;
    forall i | 0 <= i < |dels| ensures script[i].Del? { assert dels[i] in dels; }
    forall i | |dels| <= i < |script| ensures script[i].Ins? { assert adds[i - |dels|] in adds; }
  }

  // The rendered hunks can be printed and parsed.

  /** No line text would make an added or removed line look like a `+++` or `---` header. */
  predicate Plain(script: seq<Edit>) {
    forall e <- script :: '\n' !in e.line.text && (e.Ins? ==> !("++" <= e.line.text))
        && (e.Del? ==> !("--" <= e.line.text))
  }

  lemma EditLineBody(e: Edit)
    requires Plain([e])
    ensures forall line <- EditLine(e) :: Printer.BodyLine(line)
    ensures Printer.OldCount(EditLine(e)) == (if e.Ins? then 0 else 1)
        && Printer.NewCount(EditLine(e)) == (if e.Del? then 0 else 1)
  {
    assert e in [e];
    var line := EditLine(e)[0];
    assert line[1..] == e.line.text && line[0] != '\n';
    assert line == [line[0]] + e.line.text;
    Doubled(e.line.text);
    MarkerBody();
    assert EditLine(e)[1..] == if e.line.terminated then [] else [NO_NEWLINE];
  }

  lemma Doubled(text: string)
    ensures "+++" <= "+" + text <==> "++" <= text
    ensures "---" <= "-" + text <==> "--" <= text
  {
    assert ("+" + text)[1..] == text && ("-" + text)[1..] == text;
  }

  lemma MarkerBody()
    ensures Printer.BodyLine(NO_NEWLINE) && Printer.OldCount([NO_NEWLINE]) == 0 && Printer.NewCount([NO_NEWLINE]) == 0
  {
    assert NO_NEWLINE[0] == '\\';
  }

  lemma {:induction false} CountsAppend(a: seq<string>, b: seq<string>)
    ensures Printer.OldCount(a + b) == Printer.OldCount(a) + Printer.OldCount(b)
    ensures Printer.NewCount(a + b) == Printer.NewCount(a) + Printer.NewCount(b)
  {
    if a == [] {
      assert a + b == b;
    } else {
      assert (a + b)[1..] == a[1..] + b;
      CountsAppend(a[1..], b);
    }
  }

  lemma {:induction false} EditLinesBody(edits: seq<Edit>)
    requires Plain(edits)
    ensures forall line <- EditLines(edits) :: Printer.BodyLine(line)
    ensures Printer.OldCount(EditLines(edits)) == |OldOf(edits)| && Printer.NewCount(EditLines(edits)) == |NewOf(edits)|
  {
    hide EditLine, Printer.BodyLine;
    if edits != [] {
      assert edits[0] in edits;
      EditLineBody(edits[0]);
      EditLinesBody(edits[1..]);
      CountsAppend(EditLine(edits[0]), EditLines(edits[1..]));
    }
  }

  lemma {:induction false} RenderedWellFormed(segments: seq<Segment>, oldPos: nat, newPos: nat)
    requires Plain(Script(segments))
    ensures forall h <- Render(segments, oldPos, newPos) :: Printer.WellFormedHunk(h)
  {
    hide Printer.BodyLine;
    if segments != [] {
      var rest := segments[1..];
      match segments[0] {
        case Gap(lines) =>
          PlainTail(Keeps(lines), Script(rest));
          RenderedWellFormed(rest, oldPos + |lines|, newPos + |lines|);
        case Change(edits) =>
          PlainTail(edits, Script(rest));
          EditLinesBody(edits);
          assert Printer.WellFormedHunk(HunkOf(edits, oldPos, newPos));
          RenderedWellFormed(rest, oldPos + |OldOf(edits)|, newPos + |NewOf(edits)|);
      }
    }
  }

  lemma PlainTail(a: seq<Edit>, b: seq<Edit>)
    requires Plain(a + b)
    ensures Plain(a) && Plain(b)
  {
    forall e | e in a ensures e in a + b { }
    forall e | e in b ensures e in a + b { }
  }

  /** The patch of one modified file. */
  function Modified(path: string, segments: seq<Segment>): FilePatch {
    FilePatch(Some(path), Some(path), Modify, Render(segments, 0, 0))
  }

  lemma TwoLines()
    ensures BaseLines("a\n") == Lines(["a"], true) && BaseLines("a\nx\n") == Lines(["a", "x"], true)
  {
    hide Split;
    SplitPiece("", '\n');
    SplitAppend("x", "", '\n');
    SplitAppend("a", "", '\n');
    SplitAppend("a", "x\n", '\n');
    assert "a" + ['\n'] + "" == "a\n" && "x" + ['\n'] + "" == "x\n" && "a" + ['\n'] + "x\n" == "a\nx\n";
    assert Split("a\n", '\n') == ["a"] + [""] && Split("a\nx\n", '\n') == ["a"] + (["x"] + [""]);
  }

  /** Inserting "x" after the only line "a", without context. */
  const EARLY := [Gap([Line("a", true)]), Change([Ins(Line("x", true))])]

  lemma EarlyScript()
    ensures ScriptBetween(EARLY, "a\n", "a\nx\n") && !Misordered(Script(EARLY)) && !Unended(LinesOf("a\nx\n"))
  {
    var a, x := Line("a", true), Line("x", true);
    TwoLines();
    assert EARLY[1..] == [Change([Ins(x)])] && EARLY[1..][1..] == [];
    assert Script([]) == [] && Script(EARLY[1..]) == [Ins(x)] + [];
    assert [a][1..] == [] && Keeps([a]) == [Keep(a)] + [];
    assert Script(EARLY) == [Keep(a)] + [Ins(x)];
    assert Script(EARLY)[1..] == [Ins(x)] && [Ins(x)][1..] == [];
    assert ["a", "x"][1..] == ["x"] && ["x"][1..] == [] && ["a"][1..] == [];
    assert LinesOf("a\n") == [a] && LinesOf("a\nx\n") == [a] + [x];
  }

  lemma EarlyHunk()
    ensures Render(EARLY, 0, 0) == [HunkOf([Ins(Line("x", true))], 1, 1)]
    ensures Clear(EARLY, 0, 0) && !Unmoved(["a"], EARLY, 0)
    ensures var h := HunkOf([Ins(Line("x", true))], 1, 1); Start(h) == End(h) == 0 && NewSide(h.lines) == ["x"]
  {
    var a, x := Line("a", true), Line("x", true);
    assert EARLY[1..] == [Change([Ins(x)])] && EARLY[1..][1..] == [] && [Ins(x)][1..] == [];
    assert OldOf([Ins(x)]) == [] && NewOf([Ins(x)]) == [x] && Texts([x]) == ["x"];
    HunkPlace([Ins(x)], 1, 1);
    assert "x" in Texts(NewOf([Ins(x)]));
  }

  /** The code puts the line before "a" instead of after it. */
  lemma InsertionCanLandEarly()
    ensures ScriptBetween(EARLY, "a\n", "a\nx\n") && !Unmoved(["a"], EARLY, 0)
    ensures Apply("a\n", Render(EARLY, 0, 0)) == Ok("x\na\n")
  {
    hide ScriptBetween, Render, HunkOf, Unmoved, Clear, Apply, NewSide, Start, End;
    TwoLines();
    EarlyScript();
    EarlyHunk();
    RenderedText(EARLY, "a\n", "a\nx\n");
    var h := HunkOf([Ins(Line("x", true))], 1, 1);
    assert [h][1..] == [] && ["a"][0..] == ["a"] && ["a"][0..0] == [];
    assert Patched(["a"], [h], 0) == ["x", "a"];
    JoinAppend(["x"], ["a"], "\n");
    assert ["x"] + ["a"] == ["x", "a"];
    assert TextOf(Lines(["x", "a"], true)) == "x\na\n";
  }
}
