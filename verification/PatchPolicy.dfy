/** The recovery patch policy: its reasons, its decision, and when a patch is allowed. */
module PatchPolicy {
  import opened Wrappers
  import opened Text
  import opened Paths
  import opened PatchFormat
  import R = RecoveryParser

  /** Library tests the policy relies on: lower-casing and the path patterns. */
  datatype Library = Library(lower: string -> string, generated: string -> bool, sensitive: string -> bool,
      migration: string -> bool)

  datatype Policy = Policy(maximumChangedFiles: int, maximumChangedLines: int, maximumPatchHunks: int,
      maximumPatchBytes: int,
                           allowedPaths: seq<string>, deniedPaths: seq<string>, allowedExtensions: seq<string>,
                           allowNewFiles: bool, allowDeletedFiles: bool, allowGeneratedFiles: bool,
                               allowDependencyChanges: bool,
                           allowLockfileChanges: bool, allowWorkflowChanges: bool, allowInfrastructureChanges: bool,
                           allowMigrationChanges: bool, allowSecuritySensitiveChanges: bool)

  /** A parsed file with the flags the policy also reads; the parser leaves them all false. */
  datatype Candidate = Candidate(file: R.PatchFile, binary: bool, generated: bool, sensitive: bool)

  datatype PathFault = Absolute | Traversing | GitMetadata

  datatype Reason =
    | FileBudget | LineBudget | HunkBudget | ByteBudget | BadPath(fault: PathFault)
    | OutsideScope(path: string) | Denied(path: string) | FileType(path: string) | Binary(path: string)
    | NewFile(path: string) | DeletedFile(path: string) | Generated(path: string) | Dependency(path: string)
    | Lockfile(path: string) | Workflow(path: string) | Infrastructure(path: string) | Migration(path: string)
    | Sensitive(path: string) | NoProvenance(path: string, hunk: nat)

  const DEPENDENCY_FILES := {"package.json", "pyproject.toml", "go.mod", "Cargo.toml"}
  const LOCK_FILES :=
    {"package-lock.json", "pnpm-lock.yaml", "yarn.lock", "bun.lockb", "poetry.lock", "Cargo.lock", "go.sum"}
  const INFRASTRUCTURE_FILES := {"docker-compose.yml", "docker-compose.yaml", "Dockerfile", "terraform.tf"}

  function Normalize(value: string): Result<string, PathFault> {
    var slash := Slashes(value);
    if "/" <= slash || HasDrive(slash) then Err(Absolute)
    else
      var normalized := PosixNormalize(slash);
      if normalized == "" || normalized == "." || normalized == ".." || "../" <= normalized then Err(Traversing)
      else if normalized == ".git" || ".git/" <= normalized then Err(GitMetadata)
      else Ok(normalized)
  }

  /** A policy path without its trailing slash. */
  function Trimmed(candidate: string): string {
    var slash := Slashes(candidate);
    if slash != "" && slash[|slash| - 1] == '/' then slash[..|slash| - 1] else slash
  }

  /** Whether `path` lies under a policy path; `None` where the policy path makes the check throw. */
  function MatchesPrefix(path: string, candidate: string): Option<bool> {
    var trimmed := Trimmed(candidate);
    if trimmed == "." || trimmed == "" then Some(true)
    else if "/" <= trimmed || HasDrive(trimmed) then None
    else
      var normalized := PosixNormalize(trimmed);
      if normalized == "" || normalized == ".." || "../" <= normalized then None
      else Some(path == normalized || normalized + "/" <= path)
  }

  /** `candidates.some(...)`: stops at the first match, throws if it reaches a throwing one. */
  function AnyMatch(path: string, candidates: seq<string>): Option<bool> {
    if candidates == [] then Some(false)
    else
      match MatchesPrefix(path, candidates[0])
      case None => None
      case Some(true) => Some(true)
      case Some(false) => AnyMatch(path, candidates[1..])
  }

  function StripSlashes(s: string): string {
    if s != "" && s[|s| - 1] == '/' then StripSlashes(s[..|s| - 1]) else s
  }

  /** `path.posix.basename`. */
  function BaseName(path: string): string { var parts := Split(StripSlashes(path), '/'); parts[|parts| - 1] }

  function LastDot(s: string, i: nat): Option<nat>
    requires i <= |s|
  {
    if i == 0 then None else if s[i - 1] == '.' then Some(i - 1) else LastDot(s, i - 1)
  }

  function Extension(lib: Library, path: string): string {
    var base := BaseName(path);
    if base == "Dockerfile" then ".dockerfile"
    else
      lib.lower(match LastDot(base, |base|)
                case None => ""
                case Some(j) => if j > 0 && j < |base| && base != ".." then base[j..] else "")
  }

  function Fault(condition: bool, reason: Reason): seq<Reason> { if condition then [reason] else [] }

  function HunkReasons(path: string, hunks: seq<R.PatchHunk>): seq<Reason> {
    if hunks == [] then []
    else
      Fault(hunks[0].provenance.treatmentPlanStep < 1 || hunks[0].provenance.citations == [],
            NoProvenance(path, hunks[0].sequence))
      + HunkReasons(path, hunks[1..])
  }

  /** The reasons of the checks that hold, in order. */
  function Given(checks: seq<(bool, Reason)>): seq<Reason> {
    if checks == [] then [] else Fault(checks[0].0, checks[0].1) + Given(checks[1..])
  }

  /** The checks of the kind of a file, in the source's order. */
  function KindChecks(lib: Library, policy: Policy, c: Candidate, path: string): seq<(bool, Reason)> {
    var base := BaseName(path);
    [(Extension(lib, path) !in policy.allowedExtensions, FileType(path)),
     (c.binary, Binary(path)),
     (c.file.change == Add && !policy.allowNewFiles, NewFile(path)),
     (c.file.change == Delete && !policy.allowDeletedFiles, DeletedFile(path)),
     ((c.generated || lib.generated(path)) && !policy.allowGeneratedFiles, Generated(path)),
     (base in DEPENDENCY_FILES && !policy.allowDependencyChanges, Dependency(path)),
     (base in LOCK_FILES && !policy.allowLockfileChanges, Lockfile(path)),
     (".github/workflows/" <= path && !policy.allowWorkflowChanges, Workflow(path)),
     ((base in INFRASTRUCTURE_FILES || "infra/" <= path) && !policy.allowInfrastructureChanges, Infrastructure(path)),
     (lib.migration(path) && !policy.allowMigrationChanges, Migration(path)),
     ((c.sensitive || lib.sensitive(path)) && !policy.allowSecuritySensitiveChanges, Sensitive(path))]
  }

  lemma {:induction false} GivenMean(checks: seq<(bool, Reason)>, reason: Reason)
    ensures reason in Given(checks) <==> (true, reason) in checks
  {
    if checks != [] {
      GivenMean(checks[1..], reason);
      assert checks == [checks[0]] + checks[1..];
    }
  }

  /** The reasons about the kind of a file. */
  function KindReasons(lib: Library, policy: Policy, c: Candidate, path: string): seq<Reason> {
    Given(KindChecks(lib, policy, c, path))
  }

  /** The reasons of one file; `None` where a policy path makes the evaluation throw. */
  function FileReasons(lib: Library, policy: Policy, c: Candidate): Option<seq<Reason>> {
    match Normalize(c.file.Path())
    case Err(fault) => Some([BadPath(fault)])
    case Ok(path) =>
      match AnyMatch(path, policy.allowedPaths)
      case None => None
      case Some(inScope) =>
        match AnyMatch(path, policy.deniedPaths)
        case None => None
        case Some(denied) =>
          Some(Fault(!inScope, OutsideScope(path)) + Fault(denied, Denied(path))
               + KindReasons(lib, policy, c, path) + HunkReasons(path, c.file.hunks))
  }

  function FilesReasons(lib: Library, policy: Policy, files: seq<Candidate>): Option<seq<Reason>> {
    if files == [] then Some([])
    else
      match FileReasons(lib, policy, files[0])
      case None => None
      case Some(first) =>
        match FilesReasons(lib, policy, files[1..])
        case None => None
        case Some(rest) => Some(first + rest)
  }

  function TotalLines(files: seq<Candidate>): nat {
    if files == [] then 0 else files[0].file.addedLines + files[0].file.deletedLines + TotalLines(files[1..])
  }

  function TotalHunks(files: seq<Candidate>): nat {
    if files == [] then 0 else |files[0].file.hunks| + TotalHunks(files[1..])
  }

  function BudgetReasons(policy: Policy, files: seq<Candidate>, bytes: int): seq<Reason> {
    Fault(|files| > policy.maximumChangedFiles, FileBudget) + Fault(TotalLines(files) > policy.maximumChangedLines,
        LineBudget)
    + Fault(TotalHunks(files) > policy.maximumPatchHunks, HunkBudget)
        + Fault(bytes > policy.maximumPatchBytes, ByteBudget)
  }

  /** `[...new Set(reasons)]`. */
  function Unique(reasons: seq<Reason>, seen: seq<Reason>): seq<Reason> {
    if reasons == [] then seen
    else Unique(reasons[1..], if reasons[0] in seen then seen else seen + [reasons[0]])
  }

  datatype Decision = Decision(allowed: bool, reasons: seq<Reason>)

  /** The whole evaluation; `None` where it throws. */
  function Evaluate(lib: Library, policy: Policy, files: seq<Candidate>, bytes: int): Option<Decision> {
    match FilesReasons(lib, policy, files)
    case None => None
    case Some(reasons) =>
      var all := BudgetReasons(policy, files, bytes) + reasons;
      Some(Decision(all == [], Unique(all, [])))
  }

  predicate Accepted(lib: Library, policy: Policy, files: seq<Candidate>, bytes: int) {
    var r := Evaluate(lib, policy, files, bytes);
    r.Some? && r.value.allowed
  }

  lemma {:induction false} FilesReasonsAppend(lib: Library, policy: Policy, a: seq<Candidate>, b: seq<Candidate>)
    ensures var x, y, z := FilesReasons(lib, policy, a), FilesReasons(lib, policy, b), FilesReasons(lib, policy, a + b);
            (z.Some? <==> x.Some? && y.Some?) && (z.Some? ==> z.value == x.value + y.value)
  {
    hide FileReasons;
    if a == [] {
      assert a + b == b;
    } else {
      assert (a + b)[1..] == a[1..] + b;
      FilesReasonsAppend(lib, policy, a[1..], b);
    }
  }

  lemma FilesReasonsStep(lib: Library, policy: Policy, files: seq<Candidate>, i: nat)
    requires i < |files|
    ensures var before, now, after := FilesReasons(lib, policy, files[..i]), FileReasons(lib, policy, files[i]),
                                      FilesReasons(lib, policy, files[..i + 1]);
            && (before.Some? && now.Some? ==> after == Some(before.value + now.value))
            && (now.None? ==> FilesReasons(lib, policy, files).None?)
  {
    hide FileReasons;
    assert files[..i + 1] == files[..i] + [files[i]] && files == files[..i + 1] + files[i + 1..];
    FilesReasonsAppend(lib, policy, files[..i], [files[i]]);
    FilesReasonsAppend(lib, policy, files[..i + 1], files[i + 1..]);
    var now := FileReasons(lib, policy, files[i]);
    if now.Some? { assert now.value + [] == now.value; }
  }

  lemma {:induction false} HunkReasonsStep(path: string, hunks: seq<R.PatchHunk>, i: nat)
    requires i < |hunks|
    ensures HunkReasons(path, hunks[..i + 1]) == HunkReasons(path, hunks[..i])
              + Fault(hunks[i].provenance.treatmentPlanStep < 1 || hunks[i].provenance.citations == [],
                  NoProvenance(path, hunks[i].sequence))
  {
    if i > 0 {
      assert hunks[..i + 1][1..] == hunks[1..][..i] && hunks[..i][1..] == hunks[1..][..i - 1];
      HunkReasonsStep(path, hunks[1..], i - 1);
    }
  }

  /** The loops of the source over files and hunks, pushing reasons. */
  method EvaluatePatchPolicy(lib: Library, policy: Policy, files: seq<Candidate>,
      patchBytes: int) returns (r: Option<Decision>)
    ensures r == Evaluate(lib, policy, files, patchBytes)
  {
    hide AnyMatch, Normalize, KindReasons, BudgetReasons, HunkReasons, Unique, FilesReasons, FileReasons, Fault;
    ghost var budget := BudgetReasons(policy, files, patchBytes);
    var reasons := Budgets(policy, files, patchBytes);
    assert files[..0] == [];
    NoFilesNoReasons(lib, policy);
    for i := 0 to |files|
      invariant FilesReasons(lib, policy, files[..i]).Some?
      invariant reasons == budget + FilesReasons(lib, policy, files[..i]).value
    {
      FilesReasonsStep(lib, policy, files, i);
      var file := files[i];
      FileOutcome(lib, policy, file);
      var normalized := Normalize(file.file.Path());
      if normalized.Err? {
        reasons := reasons + [BadPath(normalized.error)];
        continue;
      }
      var filePath := normalized.value;
      var inScope := AnyMatch(filePath, policy.allowedPaths);
      if inScope.None? { return None; }
      var scopeReasons := Fault(!inScope.value, OutsideScope(filePath));
      var denied := AnyMatch(filePath, policy.deniedPaths);
      if denied.None? { return None; }
      var hunkReasons := ReviewHunks(filePath, file.file.hunks);
      reasons := reasons + (scopeReasons + Fault(denied.value, Denied(filePath))
                            + KindReasons(lib, policy, file, filePath) + hunkReasons);
    }
    assert files[..|files|] == files;
    return Some(Decision(reasons == [], Unique(reasons, [])));
  }

  /** The ways one pass of the loop over the files can end. */
  lemma FileOutcome(lib: Library, policy: Policy, c: Candidate)
    ensures var normalized := Normalize(c.file.Path());
            if normalized.Err? then FileReasons(lib, policy, c) == Some([BadPath(normalized.error)])
            else
              var path := normalized.value;
              var inScope, denied := AnyMatch(path, policy.allowedPaths), AnyMatch(path, policy.deniedPaths);
              if inScope.None? || denied.None? then FileReasons(lib, policy, c).None?
              else
                FileReasons(lib, policy, c)
                == Some(Fault(!inScope.value, OutsideScope(path)) + Fault(denied.value, Denied(path))
                        + KindReasons(lib, policy, c, path) + HunkReasons(path, c.file.hunks))
  {
  }

  lemma NoFilesNoReasons(lib: Library, policy: Policy)
    ensures FilesReasons(lib, policy, []) == Some([])
  {
  }

  method ReviewHunks(filePath: string, hunks: seq<R.PatchHunk>) returns (reasons: seq<Reason>)
    ensures reasons == HunkReasons(filePath, hunks)
  {
    reasons := [];
    for i := 0 to |hunks|
      invariant reasons == HunkReasons(filePath, hunks[..i])
    {
      HunkReasonsStep(filePath, hunks, i);
      if hunks[i].provenance.treatmentPlanStep < 1 || hunks[i].provenance.citations == [] {
        reasons := reasons + [NoProvenance(filePath, hunks[i].sequence)];
      }
    }
    assert hunks[..|hunks|] == hunks;
  }

  lemma {:induction false} TotalsStep(files: seq<Candidate>, i: nat)
    requires i < |files|
    ensures TotalLines(files[..i + 1]) == TotalLines(files[..i]) + files[i].file.addedLines + files[i].file.deletedLines
    ensures TotalHunks(files[..i + 1]) == TotalHunks(files[..i]) + |files[i].file.hunks|
  {
    if i > 0 {
      assert files[..i + 1][1..] == files[1..][..i] && files[..i][1..] == files[1..][..i - 1];
      TotalsStep(files[1..], i - 1);
    }
  }

  /** The two sums and the four budget checks. */
  method Budgets(policy: Policy, files: seq<Candidate>, patchBytes: int) returns (reasons: seq<Reason>)
    ensures reasons == BudgetReasons(policy, files, patchBytes)
  {
    var totalLines, totalHunks := 0, 0;
    for i := 0 to |files|
      invariant totalLines == TotalLines(files[..i]) && totalHunks == TotalHunks(files[..i])
    {
      TotalsStep(files, i);
      totalLines := totalLines + files[i].file.addedLines + files[i].file.deletedLines;
      totalHunks := totalHunks + |files[i].file.hunks|;
    }
    assert files[..|files|] == files;
    reasons := [];
    if |files| > policy.maximumChangedFiles { reasons := reasons + [FileBudget]; }
    if totalLines > policy.maximumChangedLines { reasons := reasons + [LineBudget]; }
    if totalHunks > policy.maximumPatchHunks { reasons := reasons + [HunkBudget]; }
    if patchBytes > policy.maximumPatchBytes { reasons := reasons + [ByteBudget]; }
  }

  // Prefixes are segment prefixes.

  /** `path` lies under a policy path: the whole repository, or a leading run of whole segments. */
  predicate Under(path: string, candidate: string) {
    var trimmed := Trimmed(candidate);
    trimmed == "." || trimmed == "" || Split(PosixNormalize(trimmed), '/') <= Split(path, '/')
  }

  /** When the check does not throw, it says whether the path lies under the policy path. */
  lemma MatchIsUnder(path: string, candidate: string)
    ensures MatchesPrefix(path, candidate).Some? ==> MatchesPrefix(path, candidate).value == Under(path, candidate)
  {
    hide Trimmed, PosixNormalize, Split;
    SegmentPrefix(PosixNormalize(Trimmed(candidate)), path);
  }

  lemma {:induction false} AnyMatchMeans(path: string, candidates: seq<string>)
    ensures AnyMatch(path, candidates) == Some(true) ==> exists c <- candidates :: Under(path, c)
    ensures AnyMatch(path, candidates) == Some(false) ==> forall c <- candidates :: !Under(path, c)
  {
    hide MatchesPrefix, Under;
    if candidates != [] {
      MatchIsUnder(path, candidates[0]);
      assert candidates == [candidates[0]] + candidates[1..];
      AnyMatchMeans(path, candidates[1..]);
      assert forall c <- candidates[1..] :: c in candidates;
    }
  }

  // What an allowed patch is.

  lemma {:induction false} NoReasonsEach(lib: Library, policy: Policy, files: seq<Candidate>)
    ensures FilesReasons(lib, policy, files) == Some([])
          <==> forall c <- files :: FileReasons(lib, policy, c) == Some([])
  {
    hide FileReasons;
    if files != [] {
      NoReasonsEach(lib, policy, files[1..]);
      var first, rest := FileReasons(lib, policy, files[0]), FilesReasons(lib, policy, files[1..]);
      if first.Some? && rest.Some? { assert |first.value + rest.value| == |first.value| + |rest.value|; }
      assert files == [files[0]] + files[1..];
    }
  }

  lemma AllowedMeans(lib: Library, policy: Policy, files: seq<Candidate>, bytes: int)
    ensures Accepted(lib, policy, files, bytes) <==>
            BudgetReasons(policy, files, bytes) == []
                && forall c <- files :: FileReasons(lib, policy, c) == Some([])
  {
    hide FileReasons, BudgetReasons;
    NoReasonsEach(lib, policy, files);
  }

  /** `part` is `files` with some files left out. */
  predicate PartOf(part: seq<Candidate>, files: seq<Candidate>) {
    if files == [] then part == []
    else (part != [] && part[0] == files[0] && PartOf(part[1..], files[1..])) || PartOf(part, files[1..])
  }

  lemma {:induction false} PartSmaller(part: seq<Candidate>, files: seq<Candidate>)
    requires PartOf(part, files)
    ensures |part| <= |files| && TotalLines(part) <= TotalLines(files) && TotalHunks(part) <= TotalHunks(files)
    ensures forall c <- part :: c in files
  {
    if files != [] {
      assert files == [files[0]] + files[1..];
      if part != [] && part[0] == files[0] && PartOf(part[1..], files[1..]) {
        PartSmaller(part[1..], files[1..]);
        assert part == [part[0]] + part[1..];
      } else {
        PartSmaller(part, files[1..]);
      }
    }
  }

  /** An allowed patch stays allowed when any of its files are removed and it gets no bigger. */
  lemma AllowedPartAllowed(lib: Library, policy: Policy, files: seq<Candidate>, part: seq<Candidate>, bytes: int,
      fewer: int)
    requires PartOf(part, files) && fewer <= bytes
    requires Accepted(lib, policy, files, bytes)
    ensures Evaluate(lib, policy, part, fewer) == Some(Decision(true, []))
  {
    hide FileReasons, PartOf;
    AllowedMeans(lib, policy, files, bytes);
    PartSmaller(part, files);
    hide TotalLines, TotalHunks;
    assert BudgetReasons(policy, part, fewer) == [];
    AllowedMeans(lib, policy, part, fewer);
  }
}
