/** What each reason of the patch policy means, and so what an allowed patch is, field by field. */
module PolicyReasons {
  import opened Wrappers
  import opened Text
  import opened Paths
  import opened PatchFormat
  import R = RecoveryParser
  import Counts = PatchCounts
  import opened PatchPolicy

  /** The candidate is about `path`. */
  predicate At(c: Candidate, path: string) { Normalize(c.file.Path()) == Ok(path) }

  /** The path has the base name `name`. */
  predicate Named(path: string, names: set<string>) { BaseName(path) in names }

  predicate Unproven(h: R.PatchHunk) { h.provenance.treatmentPlanStep < 1 || |h.provenance.citations| == 0 }

  /** `c` has the defect that `reason` names. */
  ghost predicate Blamed(lib: Library, policy: Policy, c: Candidate, reason: Reason) {
    match reason
    case BadPath(fault) => Normalize(c.file.Path()) == Err(fault)
    case OutsideScope(path) => At(c, path) && !exists a <- policy.allowedPaths :: Under(path, a)
    case Denied(path) => At(c, path) && exists d <- policy.deniedPaths :: Under(path, d)
    case FileType(path) => At(c, path) && Extension(lib, path) !in policy.allowedExtensions
    case Binary(path) => At(c, path) && c.binary
    case NewFile(path) => At(c, path) && c.file.change == Add && !policy.allowNewFiles
    case DeletedFile(path) => At(c, path) && c.file.change == Delete && !policy.allowDeletedFiles
    case Generated(path) => At(c, path) && !policy.allowGeneratedFiles && (c.generated || lib.generated(path))
    case Dependency(path) => At(c, path) && !policy.allowDependencyChanges && Named(path, DEPENDENCY_FILES)
    case Lockfile(path) => At(c, path) && !policy.allowLockfileChanges && Named(path, LOCK_FILES)
    case Workflow(path) => At(c, path) && !policy.allowWorkflowChanges && ".github/workflows/" <= path
    case Infrastructure(path) =>
      At(c, path) && !policy.allowInfrastructureChanges && (Named(path, INFRASTRUCTURE_FILES) || "infra/" <= path)
    case Migration(path) => At(c, path) && !policy.allowMigrationChanges && lib.migration(path)
    case Sensitive(path) => At(c, path) && !policy.allowSecuritySensitiveChanges && (c.sensitive || lib.sensitive(path))
    case NoProvenance(path, k) => At(c, path) && exists h <- c.file.hunks :: h.sequence == k && Unproven(h)
    case _ => false
  }

  function Files(files: seq<Candidate>): seq<R.PatchFile> {
    seq(|files|, i requires 0 <= i < |files| => files[i].file)
  }

  function HunksOf(files: seq<R.PatchFile>): seq<R.PatchHunk> {
    if files == [] then [] else files[0].hunks + HunksOf(files[1..])
  }

  /** The patch has the defect that `reason` names. */
  ghost predicate Earned(lib: Library, policy: Policy, files: seq<Candidate>, bytes: int, reason: Reason) {
    match reason
    case FileBudget => |files| > policy.maximumChangedFiles
    case LineBudget => R.SumAdded(Files(files)) + R.SumDeleted(Files(files)) > policy.maximumChangedLines
    case HunkBudget => |HunksOf(Files(files))| > policy.maximumPatchHunks
    case ByteBudget => bytes > policy.maximumPatchBytes
    case _ => exists c <- files :: Blamed(lib, policy, c, reason)
  }

  lemma {:induction false} TotalsMean(files: seq<Candidate>)
    ensures TotalLines(files) == R.SumAdded(Files(files)) + R.SumDeleted(Files(files))
    ensures TotalHunks(files) == |HunksOf(Files(files))|
  {
    if files != [] {
      TotalsMean(files[1..]);
      assert Files(files)[1..] == Files(files[1..]);
    }
  }

  lemma {:induction false} HunkReasonsMean(path: string, hunks: seq<R.PatchHunk>, reason: Reason)
    ensures reason in HunkReasons(path, hunks) <==>
              && reason.NoProvenance? && reason.path == path
              && exists h <- hunks :: h.sequence == reason.hunk && Unproven(h)
  {
    if hunks != [] {
      HunkReasonsMean(path, hunks[1..], reason);
      assert hunks == [hunks[0]] + hunks[1..];
    }
  }

  lemma KindReasonsMean(lib: Library, policy: Policy, c: Candidate, path: string, reason: Reason)
    requires At(c, path)
    ensures reason in KindReasons(lib, policy, c, path) <==>
              Blamed(lib, policy, c, reason) && !reason.BadPath? && !reason.OutsideScope? && !reason.Denied?
                  && !reason.NoProvenance?
  {
    hide Extension, BaseName, Normalize, Given;
    GivenMean(KindChecks(lib, policy, c, path), reason);
  }

  lemma FileReasonsMean(lib: Library, policy: Policy, c: Candidate, reason: Reason)
    requires FileReasons(lib, policy, c).Some?
    ensures reason in FileReasons(lib, policy, c).value <==> Blamed(lib, policy, c, reason)
  {
    hide AnyMatch, KindReasons, HunkReasons, Normalize, Extension, BaseName, Under;
    FileOutcome(lib, policy, c);
    var normalized := Normalize(c.file.Path());
    if normalized.Ok? {
      var path := normalized.value;
      AnyMatchMeans(path, policy.allowedPaths);
      AnyMatchMeans(path, policy.deniedPaths);
      KindReasonsMean(lib, policy, c, path, reason);
      HunkReasonsMean(path, c.file.hunks, reason);
    }
  }

  lemma {:induction false} FilesReasonsMean(lib: Library, policy: Policy, files: seq<Candidate>, reason: Reason)
    requires FilesReasons(lib, policy, files).Some?
    ensures reason in FilesReasons(lib, policy, files).value <==> exists c <- files :: Blamed(lib, policy, c, reason)
  {
    hide FileReasons, Blamed;
    if files != [] {
      FileReasonsMean(lib, policy, files[0], reason);
      FilesReasonsMean(lib, policy, files[1..], reason);
      assert files == [files[0]] + files[1..];
    }
  }

  lemma {:induction false} UniqueMeans(reasons: seq<Reason>, seen: seq<Reason>)
    requires forall i, j :: 0 <= i < j < |seen| ==> seen[i] != seen[j]
    ensures var all := Unique(reasons, seen);
            && (forall r :: r in all <==> r in seen || r in reasons)
            && forall i, j :: 0 <= i < j < |all| ==> all[i] != all[j]
  {
    if reasons != [] {
      assert reasons == [reasons[0]] + reasons[1..];
      UniqueMeans(reasons[1..], if reasons[0] in seen then seen else seen + [reasons[0]]);
    }
  }

  /**
   * When the evaluation does not throw, the reasons are exactly those the patch has earned, each once,
   * and the patch is allowed exactly when it has earned none.
   */
  lemma ReasonsMean(lib: Library, policy: Policy, files: seq<Candidate>, bytes: int)
    requires Evaluate(lib, policy, files, bytes).Some?
    ensures var decision := Evaluate(lib, policy, files, bytes).value;
            && (forall reason :: reason in decision.reasons <==> Earned(lib, policy, files, bytes, reason))
            && (forall i, j :: 0 <= i < j < |decision.reasons| ==> decision.reasons[i] != decision.reasons[j])
            && (decision.allowed <==> !exists reason :: Earned(lib, policy, files, bytes, reason))
  {
    hide FilesReasons, Unique, BudgetReasons, Earned;
    var budget, found := BudgetReasons(policy, files, bytes), FilesReasons(lib, policy, files).value;
    UniqueMeans(budget + found, []);
    forall reason ensures reason in budget + found <==> Earned(lib, policy, files, bytes, reason) {
      EarnedSplits(lib, policy, files, bytes, reason);
    }
    assert budget + found != [] ==> (budget + found)[0] in budget + found;
  }

  lemma EarnedSplits(lib: Library, policy: Policy, files: seq<Candidate>, bytes: int, reason: Reason)
    requires FilesReasons(lib, policy, files).Some?
    ensures Earned(lib, policy, files, bytes, reason) <==>
              reason in BudgetReasons(policy, files, bytes) + FilesReasons(lib, policy, files).value
  {
    hide FilesReasons;
    TotalsMean(files);
    FilesReasonsMean(lib, policy, files, reason);
  }

  // When the evaluation throws.

  /** A policy path that cannot be matched: absolute, or it climbs out of the repository. */
  predicate Unmatchable(candidate: string) {
    var trimmed := Trimmed(candidate);
    && trimmed != "." && trimmed != ""
    && ("/" <= trimmed || HasDrive(trimmed) || [".."] <= Split(PosixNormalize(trimmed), '/'))
  }

  /** The first candidates do not hold `path`, and the next one cannot be matched. */
  ghost predicate Trips(path: string, candidates: seq<string>) {
    exists i :: 0 <= i < |candidates| && Unmatchable(candidates[i]) && forall c <- candidates[..i] :: !Under(path, c)
  }

  lemma UnmatchableThrows(path: string, candidate: string)
    ensures MatchesPrefix(path, candidate).None? <==> Unmatchable(candidate)
  {
    hide Split, Join, NormalizeSegments, Trimmed;
    var trimmed := Trimmed(candidate);
    SplitPiece("..", '/');
    if trimmed != "" { SegmentPrefix("..", PosixNormalize(trimmed)); }
  }

  lemma {:induction false} AnyMatchTrips(path: string, candidates: seq<string>)
    ensures AnyMatch(path, candidates).None? <==> Trips(path, candidates)
  {
    hide MatchesPrefix, Under, Unmatchable;
    if candidates != [] {
      var first, rest := candidates[0], candidates[1..];
      MatchIsUnder(path, first);
      UnmatchableThrows(path, first);
      AnyMatchTrips(path, rest);
      if Trips(path, candidates) && !Unmatchable(first) {
        var i :| 0 <= i < |candidates| && Unmatchable(candidates[i]) && forall c <- candidates[..i] :: !Under(path, c);
        assert candidates[..i] == [first] + rest[..i - 1];
        assert first in candidates[..i] && Unmatchable(rest[i - 1]);
        assert forall c <- rest[..i - 1] :: c in candidates[..i];
      }
      if Trips(path, rest) && !Under(path, first) {
        var i :| 0 <= i < |rest| && Unmatchable(rest[i]) && forall c <- rest[..i] :: !Under(path, c);
        assert candidates[..i + 1] == [first] + rest[..i] && candidates[i + 1] == rest[i];
      }
    }
  }

  lemma {:induction false} FilesTrip(lib: Library, policy: Policy, files: seq<Candidate>)
    ensures FilesReasons(lib, policy, files).None? <==> exists c <- files :: FileReasons(lib, policy, c).None?
  {
    hide FileReasons;
    if files != [] {
      FilesTrip(lib, policy, files[1..]);
      assert files == [files[0]] + files[1..];
    }
  }

  /** The evaluation throws exactly when some file with a good path reaches a policy path that cannot be matched. */
  lemma ThrowsIff(lib: Library, policy: Policy, files: seq<Candidate>, bytes: int)
    ensures Evaluate(lib, policy, files, bytes).None? <==>
              exists c <- files ::
                var path := Normalize(c.file.Path());
                path.Ok? && (Trips(path.value, policy.allowedPaths) || Trips(path.value, policy.deniedPaths))
  {
    hide FilesReasons, FileReasons, Normalize, AnyMatch, Trips;
    FilesTrip(lib, policy, files);
    forall c | c in files
      ensures FileReasons(lib, policy, c).None? <==>
                var path := Normalize(c.file.Path());
                path.Ok? && (Trips(path.value, policy.allowedPaths) || Trips(path.value, policy.deniedPaths))
    {
      FileOutcome(lib, policy, c);
      var path := Normalize(c.file.Path());
      if path.Ok? {
        AnyMatchTrips(path.value, policy.allowedPaths);
        AnyMatchTrips(path.value, policy.deniedPaths);
      }
    }
  }

  // Base names and extensions.

  predicate EndsWith(s: string, tail: string) { |tail| <= |s| && s[|s| - |tail|..] == tail }

  /** The base name is what follows the last slash; slashes at the end do not count. */
  lemma BaseNameMeans(path: string, name: string)
    ensures BaseName(path + "/") == BaseName(path)
    ensures path == "" || path[|path| - 1] != '/' ==>
              (BaseName(path) == name <==> '/' !in name && (path == name || EndsWith(path, "/" + name)))
  {
    hide Split, Join;
    assert (path + "/")[..|path|] == path;
    var parts := Split(path, '/');
    if path == "" || path[|path| - 1] != '/' {
      assert StripSlashes(path) == path;
      LastPiece(path);
      if EndsWith(path, "/" + name) && '/' !in name {
        var before := path[..|path| - |name| - 1];
        assert path == before + "/" + name;
        SplitConcat(before, name);
        SplitPiece(name, '/');
      }
      if path == name && '/' !in name { SplitPiece(name, '/'); }
    }
  }

  lemma {:induction false} LastPiece(path: string)
    ensures var parts := Split(path, '/');
            var last := parts[|parts| - 1];
            '/' !in last && (path == last || EndsWith(path, "/" + last))
  {
    hide Split, Join;
    var parts := Split(path, '/');
    var last := parts[|parts| - 1];
    JoinSplit(path, '/');
    if |parts| > 1 {
      var front := parts[..|parts| - 1];
      assert parts == front + [last];
      JoinAppend(front, [last], "/");
      JoinOne(last);
      assert path == Join(front, "/") + ("/" + last);
    } else {
      assert parts == [last];
      JoinOne(last);
    }
  }

  lemma JoinOne(last: string)
    ensures Join([last], "/") == last
  {
  }

  lemma {:induction false} LastDotIs(s: string, i: nat, at: nat)
    requires at < i <= |s| && s[at] == '.' && forall k :: at < k < i ==> s[k] != '.'
    ensures LastDot(s, i) == Some(at)
  {
    if i > at + 1 { LastDotIs(s, i - 1, at); }
  }

  lemma {:induction false} NoDot(s: string, i: nat)
    requires i <= |s| && '.' !in s
    ensures LastDot(s, i) == None
  {
    if i > 0 { NoDot(s, i - 1); }
  }

  /** The extension is the lower case of what follows a last dot that has a name before it. */
  lemma ExtensionMeans(lib: Library, path: string, stem: string, suffix: string)
    requires '.' !in suffix
    ensures BaseName(path) == stem + "." + suffix ==>
              Extension(lib, path)
              == lib.lower(if stem == "" || (stem == "." && suffix == "") then "" else "." + suffix)
    ensures BaseName(path) == suffix ==>
              Extension(lib, path) == if suffix == "Dockerfile" then ".dockerfile" else lib.lower("")
  {
    hide BaseName, LastDot;
    var base := BaseName(path);
    if base == stem + "." + suffix {
      assert base[|stem|] == '.' && base[|stem|..] == "." + suffix;
      LastDotIs(base, |base|, |stem|);
      assert '.' in base && '.' !in "Dockerfile";
      assert suffix != "" ==> base[|base| - 1] == suffix[|suffix| - 1];
      assert stem == base[..|stem|];
      assert base == ".." ==> suffix == "" && stem[0] == '.';
    }
    NoDot(suffix, |suffix|);
  }
}
