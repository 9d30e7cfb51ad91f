/** Patch paths: the two normalizers of the patch pipeline and the paths on which they agree. */
module Paths {
  import opened Wrappers
  import opened Text

  /** Which of the two patch parsers is running. */
  datatype Side = Publication | Recovery

  /** `value.replace(/^"|"$/g, '')`. */
  function Unquote(s: string): string {
    var t := if s != "" && s[0] == '"' then s[1..] else s;
    if t != "" && t[|t| - 1] == '"' then t[..|t| - 1] else t
  }

  /** `value.replace(/\\/g, '/')`. */
  function Slashes(s: string): string {
    seq(|s|, i requires 0 <= i < |s| => if s[i] == '\\' then '/' else s[i])
  }

  predicate IsLetter(c: char) { 'A' <= c <= 'Z' || 'a' <= c <= 'z' }

  /** `/^[A-Za-z]:\//`. */
  predicate HasDrive(s: string) { |s| >= 3 && IsLetter(s[0]) && s[1] == ':' && s[2] == '/' }

  /** One pass of `path.posix.normalize` over the segments; `kept` is the stack of segments so far. */
  function NormalizeSegments(segments: seq<string>, kept: seq<string>, aboveRoot: bool): seq<string> {
    if segments == [] then kept
    else
      var s, rest := segments[0], segments[1..];
      if s == "" || s == "." then NormalizeSegments(rest, kept, aboveRoot)
      else if s == ".." then
        if kept != [] && kept[|kept| - 1] != ".." then NormalizeSegments(rest, kept[..|kept| - 1], aboveRoot)
        else NormalizeSegments(rest, if aboveRoot then kept + [".."] else kept, aboveRoot)
      else NormalizeSegments(rest, kept + [s], aboveRoot)
  }

  /** `path.posix.normalize`. */
  function PosixNormalize(s: string): string {
    if s == "" then "."
    else
      var absolute := s[0] == '/';
      var trailing := s[|s| - 1] == '/';
      var body := Join(NormalizeSegments(Split(s, '/'), [], !absolute), "/");
      if body == "" then (if absolute then "/" else if trailing then "./" else ".")
      else (if absolute then "/" else "") + body + (if trailing then "/" else "")
  }

  /** `normalizePatchPath` of either parser; `None` where it throws. */
  function NormalizePatchPath(side: Side, value: string): Option<string> {
    var candidate := Slashes(Unquote(value));
    if candidate == "" || candidate == "/dev/null" then Some(candidate)
    else if '\0' in candidate || candidate[0] == '/' || HasDrive(candidate) then None
    else
      match side
      case Publication =>
        var segments := Split(candidate, '/');
        if ".." in segments || segments[0] == ".git" then None
        else Some(Join(if segments[0] == "." then segments[1..] else segments, "/"))
      case Recovery =>
        var normalized := PosixNormalize(candidate);
        if normalized == ".." || "../" <= normalized || Includes(normalized, "/../") then None
        else if ".git/" <= normalized || normalized == ".git" then None
        else Some(normalized)
  }

  /** An already normalized repository path, as a patch header can carry it. */
  predicate CleanPath(p: string) {
    var segments := Split(p, '/');
    && p != ""
    && OneLine(p) && '\\' !in p && '\0' !in p
    && p[0] != '"' && p[|p| - 1] != '"'
    && !HasDrive(p)
    && segments[0] != ".git"
    && "" !in segments && "." !in segments && ".." !in segments
  }

  lemma {:induction false} NormalizeSegmentsPlain(segments: seq<string>, kept: seq<string>, aboveRoot: bool)
    requires "" !in segments && "." !in segments && ".." !in segments
    ensures NormalizeSegments(segments, kept, aboveRoot) == kept + segments
  {
    if segments != [] {
      NormalizeSegmentsPlain(segments[1..], kept + [segments[0]], aboveRoot);
      assert kept + segments == (kept + [segments[0]]) + segments[1..];
    } else {
      assert kept + segments == kept;
    }
  }

  lemma FirstSegmentEmpty(s: string)
    requires s != ""
    ensures Split(s, '/')[0] == "" <==> s[0] == '/'
  {
  }

  lemma {:induction false} LastIsEmpty(s: string)
    requires s != "" && s[|s| - 1] == '/'
    ensures var parts := Split(s, '/'); |parts| >= 2 && parts[|parts| - 1] == ""
  {
    if |s| > 1 {
      LastIsEmpty(s[1..]);
      assert Split(s, '/')[1..] == if s[0] == '/' then Split(s[1..], '/') else Split(s[1..], '/')[1..];
    } else {
      assert Split(s, '/') == [""] + Split("", '/');
    }
  }

  lemma {:induction false} ParentInText(s: string)
    requires Includes(s, "/../")
    ensures ".." in Split(s, '/')[1..]
  {
    if "/../" <= s {
      assert s == "/" + "../" + s[4..];
      assert s[1..] == ".." + ['/'] + s[4..];
      SplitAppend("..", s[4..], '/');
      assert Split(s, '/')[1] == "..";
    } else {
      ParentInText(s[1..]);
      var rest := Split(s[1..], '/');
      assert Split(s, '/')[1..] == if s[0] == '/' then rest else rest[1..];
    }
  }

  lemma FirstSegmentIs(s: string, first: string)
    requires '/' !in first
    ensures s == first || first + "/" <= s ==> Split(s, '/')[0] == first
  {
    if s == first {
      SplitPiece(s, '/');
    } else if first + "/" <= s {
      var rest := s[|first| + 1..];
      assert s == first + ['/'] + rest;
      SplitAppend(first, rest, '/');
    }
  }

  lemma SlashesUnquoteClean(p: string)
    requires p != "" && '\\' !in p && p[0] != '"' && p[|p| - 1] != '"'
    ensures Slashes(Unquote(p)) == p
  {
  }

  /** `normalize` leaves a path with no empty, `.` or `..` segment alone. */
  lemma {:induction false} PosixNormalizeClean(p: string)
    requires p != "" && "" !in Split(p, '/') && "." !in Split(p, '/') && ".." !in Split(p, '/')
    ensures PosixNormalize(p) == p && p[0] != '/'
  {
    hide NormalizeSegments, Split, Join;
    var segments := Split(p, '/');
    FirstSegmentEmpty(p);
    if p[|p| - 1] == '/' { LastIsEmpty(p); }
    NormalizeSegmentsPlain(segments, [], true);
    assert [] + segments == segments;
    JoinSplit(p, '/');
  }

  /** On normalized paths the two normalizers are the identity, so they agree. */
  lemma {:induction false} CleanPathIsFixed(side: Side, p: string)
    requires CleanPath(p)
    ensures NormalizePatchPath(side, p) == Some(p)
  {
    hide PosixNormalize, Slashes, Unquote, Split, Join, Includes, HasDrive;
    var segments := Split(p, '/');
    SlashesUnquoteClean(p);
    PosixNormalizeClean(p);
    JoinSplit(p, '/');
    if Includes(p, "/../") { ParentInText(p); }
    FirstSegmentIs(p, "..");
    FirstSegmentIs(p, ".git");
  }

  // Where a path leads.

  /** The directory or file reached from `place` by following the segments; `..` at the root stays there. */
  function Walk(place: seq<string>, segments: seq<string>): seq<string>
    decreases segments
  {
    if segments == [] then place
    else
      var s, rest := segments[0], segments[1..];
      if s == "" || s == "." then Walk(place, rest)
      else if s == ".." then Walk(if place == [] then [] else place[..|place| - 1], rest)
      else Walk(place + [s], rest)
  }

  lemma {:induction false} WalkOn(place: seq<string>, first: seq<string>, rest: seq<string>)
    ensures Walk(place, first + rest) == Walk(Walk(place, first), rest)
    decreases first
  {
    if first == [] {
      assert [] + rest == rest;
    } else {
      assert (first + rest)[1..] == first[1..] + rest;
      var s := first[0];
      if s == "" || s == "." { WalkOn(place, first[1..], rest); }
      else if s == ".." { WalkOn(if place == [] then [] else place[..|place| - 1], first[1..], rest); }
      else { WalkOn(place + [s], first[1..], rest); }
    }
  }

  /** Normalized segments: real names, behind `..` segments that climb above the start if that is possible. */
  predicate Settled(segments: seq<string>, climbs: bool) {
    && (forall s <- segments :: s != "" && s != "." && '/' !in s)
    && forall i :: 0 <= i < |segments| && segments[i] == ".." ==> climbs && (i == 0 || segments[i - 1] == "..")
  }

  lemma NoSteps(place: seq<string>)
    ensures Walk(place, []) == place
  {
  }

  lemma OneStep(place: seq<string>, s: string)
    ensures s == "" || s == "." ==> Walk(place, [s]) == place
    ensures s == ".." ==> Walk(place, [s]) == if place == [] then [] else place[..|place| - 1]
    ensures s != "" && s != "." && s != ".." ==> Walk(place, [s]) == place + [s]
  {
    assert [s][1..] == [];
  }

  lemma {:induction false} SegmentsKeepPlace(place: seq<string>, segments: seq<string>, kept: seq<string>, climbs: bool)
    requires Settled(kept, climbs) && forall s <- segments :: '/' !in s
    requires climbs || place == []
    ensures var all := NormalizeSegments(segments, kept, climbs);
            Settled(all, climbs) && Walk(place, all) == Walk(Walk(place, kept), segments)
    decreases segments
  {
    hide Walk, Settled;
    NoSteps(Walk(place, kept));
    if segments != [] {
      var s, rest := segments[0], segments[1..];
      assert segments == [s] + rest;
      WalkOn(Walk(place, kept), [s], rest);
      OneStep(Walk(place, kept), s);
      if s == "" || s == "." {
        SegmentsKeepPlace(place, rest, kept, climbs);
      } else if s == ".." && kept != [] && kept[|kept| - 1] != ".." {
        var shorter, name := kept[..|kept| - 1], kept[|kept| - 1];
        assert kept == shorter + [name];
        SettledLast(shorter, name, climbs);
        WalkOn(place, shorter, [name]);
        OneStep(Walk(place, shorter), name);
        SegmentsKeepPlace(place, rest, shorter, climbs);
      } else if s == ".." && !climbs {
        NoClimb(kept);
        SegmentsKeepPlace(place, rest, kept, climbs);
      } else {
        SettledLast(kept, s, climbs);
        WalkOn(place, kept, [s]);
        SegmentsKeepPlace(place, rest, kept + [s], climbs);
      }
    }
  }

  lemma SettledLast(kept: seq<string>, s: string, climbs: bool)
    ensures Settled(kept + [s], climbs) <==>
              && Settled(kept, climbs) && s != "" && s != "." && '/' !in s
              && (s == ".." ==> climbs && (kept == [] || kept[|kept| - 1] == ".."))
  {
    var more := kept + [s];
    assert more[|kept|] == s && forall i :: 0 <= i < |kept| ==> more[i] == kept[i];
    assert (forall x <- more :: x != "" && x != "." && '/' !in x) ==>
        s in more && forall x <- kept :: x in more;
  }

  lemma NoClimb(kept: seq<string>)
    requires Settled(kept, false) && (kept != [] ==> kept[|kept| - 1] == "..")
    ensures kept == [] && Walk([], kept) == []
  {
  }

  /** `normalize` gives its settled segments, and keeps whether the path is absolute and a slash at its end. */
  lemma NormalizeShape(s: string)
    requires s != ""
    ensures var absolute, slash := s[0] == '/', s[|s| - 1] == '/';
            var all := NormalizeSegments(Split(s, '/'), [], !absolute);
            && Settled(all, !absolute)
            && PosixNormalize(s) == if all == [] then (if absolute then "/" else if slash then "./" else ".")
               else (if absolute then "/" else "") + Join(all, "/") + (if slash then "/" else "")
  {
    hide Split, Join, NormalizeSegments, Walk, Settled;
    var all := NormalizeSegments(Split(s, '/'), [], s[0] != '/');
    NothingSettled();
    SegmentsKeepPlace([], Split(s, '/'), [], s[0] != '/');
    SettledIsNamed(all, s[0] != '/');
    JoinNonEmpty(all);
    JoinNone();
  }

  lemma NothingSettled()
    ensures Settled([], true) && Settled([], false)
  {
  }

  lemma SettledIsNamed(all: seq<string>, climbs: bool)
    requires Settled(all, climbs)
    ensures forall s <- all :: s != "" && '/' !in s
  {
  }

  lemma JoinNonEmpty(parts: seq<string>)
    requires forall p <- parts :: p != ""
    ensures Join(parts, "/") == "" <==> parts == []
  {
    if parts != [] { assert parts[0] in parts; }
  }

  lemma SplitAround(prefix: string, all: seq<string>, slash: string, place: seq<string>)
    requires prefix == "" || prefix == "/"
    requires slash == "" || slash == "/"
    requires all != [] && forall s <- all :: '/' !in s
    ensures Walk(place, Split(prefix + Join(all, "/") + slash, '/')) == Walk(place, all)
  {
    hide Split, Join, Walk;
    var body := Join(all, "/");
    SplitJoin(all, '/');
    assert Split(body, '/') == all;
    SplitPiece("", '/');
    OneStep(place, "");
    SplitConcat("", body + slash);
    SplitConcat(body, "");
    assert "" + "/" + (body + slash) == "/" + body + slash && body + "/" + "" == body + "/";
    WalkOn(place, [""], Split(body + slash, '/'));
    WalkOn(place, all, [""]);
    OneStep(Walk(place, all), "");
    if slash == "" { assert body + slash == body; }
    assert Walk(place, Split(body + slash, '/')) == Walk(place, all);
    if prefix == "" { assert prefix + body + slash == body + slash; }
  }

  /** The normalized path leads to the same place from every directory (an absolute one: from the root). */
  lemma NormalizeKeepsPlace(s: string, place: seq<string>)
    requires s != "" && (s[0] == '/' ==> place == [])
    ensures Walk(place, Split(PosixNormalize(s), '/')) == Walk(place, Split(s, '/'))
  {
    hide Split, Join, NormalizeSegments, Walk, PosixNormalize;
    var absolute, all := s[0] == '/', NormalizeSegments(Split(s, '/'), [], s[0] != '/');
    SegmentsKeepPlace(place, Split(s, '/'), [], !absolute);
    StayPut(place);
    NoSteps(place);
    NormalizeShape(s);
    if all != [] {
      SplitAround(if absolute then "/" else "", all, if s[|s| - 1] == '/' then "/" else "", place);
    } else {
      assert PosixNormalize(s) == if absolute then "/" else if s[|s| - 1] == '/' then "./" else ".";
    }
  }

  lemma JoinNone()
    ensures Join([], "/") == ""
  {
  }

  lemma StayPut(place: seq<string>)
    ensures Walk(place, Split(".", '/')) == place && Walk(place, Split("./", '/')) == place
    ensures Walk(place, Split("/", '/')) == place
  {
    hide Split;
    SplitPiece(".", '/');
    SplitPiece("", '/');
    SplitConcat(".", "");
    SplitConcat("", "");
    assert "." + "/" + "" == "./" && "" + "/" + "" == "/";
    OneStep(place, ".");
    OneStep(place, "");
    WalkOn(place, ["."], [""]);
    WalkOn(place, [""], [""]);
  }

  lemma {:induction false} ClimbsInFront(segments: seq<string>, i: nat)
    requires Settled(segments, true) && i < |segments| && segments[i] == ".."
    ensures segments[0] == ".."
  {
    if i > 0 { ClimbsInFront(segments, i - 1); }
  }

  lemma NormalizedClimbsInFront(s: string)
    requires s != "" && s[0] != '/'
    ensures var n := PosixNormalize(s); ".." in Split(n, '/') ==> n == ".." || "../" <= n
  {
    hide Split, Join, NormalizeSegments, PosixNormalize, Settled;
    var n, all := PosixNormalize(s), NormalizeSegments(Split(s, '/'), [], true);
    NormalizeShape(s);
    JoinNone();
    SplitPiece("", '/');
    SplitPiece(".", '/');
    SplitPiece("..", '/');
    assert ".." != ".";
    SegmentPrefix("..", n);
    var body := if all == [] then "." else Join(all, "/");
    var segments := if all == [] then ["."] else all;
    if all != [] { SettledIsNamed(all, true); SplitJoin(all, '/'); }
    assert Split(body, '/') == segments;
    SplitConcat(body, "");
    assert body + "/" + "" == body + "/";
    assert n == body || n == body + "/";
    if ".." in Split(n, '/') {
      assert ".." in all;
      var i :| 0 <= i < |all| && all[i] == "..";
      ClimbsInFront(all, i);
    }
  }

  /** No path that either normalizer lets through climbs: a walk along it never leaves where it started. */
  lemma NormalizedNeverClimbs(side: Side, value: string)
    ensures NormalizePatchPath(side, value).Some? ==> ".." !in Split(NormalizePatchPath(side, value).value, '/')
  {
    hide Split, Join, PosixNormalize, NormalizeSegments, Includes, Slashes, Unquote, HasDrive;
    var candidate := Slashes(Unquote(value));
    SplitPiece("", '/');
    assert Split("/dev/null", '/') == ["", "dev", "null"] by { NullSegments(); }
    if side == Publication {
      var segments := Split(candidate, '/');
      var rest := if segments[0] == "." then segments[1..] else segments;
      if rest != [] { SplitJoin(rest, '/'); } else { JoinNone(); }
    } else if candidate != "" && candidate[0] != '/' {
      NormalizedClimbsInFront(candidate);
    }
  }

  lemma NullSegments()
    ensures Split("/dev/null", '/') == ["", "dev", "null"]
  {
    hide Split;
    SplitAppend("", "dev/null", '/');
    SplitAppend("dev", "null", '/');
    SplitPiece("null", '/');
    assert "" + ['/'] + "dev/null" == "/dev/null" && "dev" + ['/'] + "null" == "dev/null";
  }
}
